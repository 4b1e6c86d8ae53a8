/** Many runs, the API and any number of runners. Each claim, each API call and each commit of an
    executor is one step; steps of different runners interleave freely. */
module RunLifecycle {
  import opened Options
  import opened RunModel
  import opened RunOrder
  import opened RunProtocol
  import opened RunTheorems
  import RunExecutor

  /** A row of `runs`. `acts` is a history variable: what happened to the run before the dispatch
      that is under way, if one is. */
  datatype Record = Record(life: Life, createdAt: nat, db: Db, acts: seq<Act>)

  /** A runner executing a run: what the executor will still do, and how far it is. */
  datatype Hold = Hold(id: nat, script: seq<Attempt>, done: nat)

  datatype System = System(runs: seq<Record>, held: map<nat, Hold>)

  datatype Step =
    | Create(life: Life, now: nat)
    | RetryCall(id: nat)
    | ResumeCall(id: nat, addUsd: Option<nat>, addTime: Option<nat>)
    | ClaimBy(runner: nat, script: seq<Attempt>)
    | Work(runner: nat)
    | Die(runner: nat)

  // ----- the claim --------------------------------------------------------------------------------

  predicate IsOldest(runs: seq<Record>, i: nat) {
    && i < |runs| && runs[i].db.status.Pending?
    && forall j :: 0 <= j < |runs| && runs[j].db.status.Pending? ==> runs[i].createdAt <= runs[j].createdAt
  }

  /** The first pending run of least creation time among the first `n`. */
  function Oldest(runs: seq<Record>, n: nat): (r: Option<nat>)
    requires n <= |runs|
    ensures r.Some? ==> r.value < n && IsOldest(runs[..n], r.value)
    ensures r.None? ==> forall j :: 0 <= j < n ==> !runs[j].db.status.Pending?
  {
    if n == 0 then None
    else
      var best := Oldest(runs, n - 1);
      if runs[n - 1].db.status.Pending? && (best.None? || runs[n - 1].createdAt < runs[best.value].createdAt)
      then Some(n - 1) else best
  }

  datatype Reply = Done | NotFound | NoWorkflow | NotRetryable | NotPaused

  /** The `runs` table as the API and the claim update it. */
  class RunTable {
    var runs: seq<Record>

    constructor ()
      ensures runs == []
    {
      runs := [];
    }

    method CreateRun(life: Life, now: nat) returns (reply: Reply)
      modifies this
      ensures reply == if life.workflow.steps == [] then NoWorkflow else Done
      ensures runs == if reply.Done? then old(runs) + [Record(life, now, Created(life), [])] else old(runs)
    {
      if life.workflow.steps == [] {
        return NoWorkflow;
      }
      var iterations := life.launch.iterations.GetOr(0);
      if iterations == 0 {
        iterations := life.workflow.iterations;
      }
      var budget := life.workflow.defaultBudget;
      if life.launch.budget.Some? {
        budget := life.launch.budget.value;
      }
      var ctx := Context(iterations, life.launch.agent, Some(budget), None, None, None, None);
      runs := runs + [Record(life, now, Db(Pending, ctx, RunModel.Work([], [], [], "")), [])];
      reply := Done;
    }

    method RetryRun(id: nat) returns (reply: Reply)
      modifies this
      ensures reply == if id >= |old(runs)| then NotFound
        else if old(runs)[id].db.status.Failed? || old(runs)[id].db.status.Cancelled? then Done else NotRetryable
      ensures runs == if id < |old(runs)|
        then old(runs)[id := old(runs)[id].(db := Next(old(runs)[id].life, old(runs)[id].db, Retry))] else old(runs)
    {
      if id >= |runs| {
        return NotFound;
      }
      if runs[id].db.status !in {RunStatus.Failed, Cancelled} {
        return NotRetryable;
      }
      runs := runs[id := runs[id].(db := runs[id].db.(status := Pending))];
      reply := Done;
    }

    method ResumeRun(id: nat, additionalUsd: Option<nat>, additionalTime: Option<nat>) returns (reply: Reply)
      modifies this
      ensures reply == if id >= |old(runs)| then NotFound
        else if old(runs)[id].db.status.Paused? then Done else NotPaused
      ensures runs == if id < |old(runs)|
        then old(runs)[id := old(runs)[id].(
               db := Next(old(runs)[id].life, old(runs)[id].db, Resume(additionalUsd, additionalTime)))]
        else old(runs)
    {
      if id >= |runs| {
        return NotFound;
      }
      var run := runs[id];
      if !run.db.status.Paused? {
        return NotPaused;
      }
      var ctx := run.db.ctx;
      var kind := ctx.pausedKind.GetOr(Cost);
      var addUsd, addTime := additionalUsd, additionalTime;
      if addUsd.None? && addTime.None? {
        if kind == StepTime {
          addTime := Some(36_000);
        } else {
          addUsd := Some(2_000_000);
        }
      }
      if addUsd.Some? && addUsd.value != 0 {
        var cur := OrDefault(ctx.budget, run.life.workflow.defaultBudget);
        ctx := ctx.(budget := Some(Round4(cur + addUsd.value)));
      }
      if addTime.Some? && addTime.value != 0 {
        var cur := OrDefault(ctx.timeout, run.life.workflow.defaultTimeout);
        ctx := ctx.(timeout := Some(cur + addTime.value));
      }
      ctx := ctx.(pausedKind := None);
      runs := runs[id := run.(db := run.db.(status := Pending, ctx := ctx))];
      reply := Done;
    }

    /** `_claim_next_run`, as one atomic statement. */
    method ClaimNextRun() returns (claimed: Option<nat>)
      modifies this
      ensures claimed == Oldest(old(runs), |old(runs)|)
      ensures claimed.None? ==> runs == old(runs)
      ensures claimed.Some? ==> IsOldest(old(runs), claimed.value)
      ensures claimed.Some? ==> var record := old(runs)[claimed.value];
        runs == old(runs)[claimed.value := record.(db := Next(record.life, record.db, Claim))]
    {
      claimed := None;
      for i := 0 to |runs|
        invariant runs == old(runs)
        invariant claimed == Oldest(runs, i)
      {
        if runs[i].db.status.Pending? && (claimed.None? || runs[i].createdAt < runs[claimed.value].createdAt) {
          claimed := Some(i);
        }
      }
      assert runs[..|runs|] == runs;
      if claimed.Some? {
        runs := runs[claimed.value := runs[claimed.value].(db := runs[claimed.value].db.(status := Scheduled))];
      }
    }

    /** `_run_one`: claims the oldest pending run and executes it in a session of its own, of which only
        what was committed stays. The query returns the rows as `prior`, in whatever order. */
    method RunOne(script: seq<Attempt>) returns (did: bool, ghost prior: seq<Row>)
      modifies this
      ensures did <==> Oldest(old(runs), |old(runs)|).Some?
      ensures !did ==> runs == old(runs)
      ensures did ==>
        var i := Oldest(old(runs), |old(runs)|).value;
        var was, claimed := old(runs)[i], Next(old(runs)[i].life, old(runs)[i].db, Claim);
        && |runs| == |old(runs)| && (forall j :: 0 <= j < |runs| && j != i ==> runs[j] == old(runs)[j])
        && multiset(prior) == multiset(claimed.work.rows)
        && runs[i].db == LastCommit(claimed, TraceRead(PlanOf(was.life.workflow, claimed.ctx), claimed, prior, script))
      ensures (forall r :: r in old(runs) ==> Explained(r)) ==> forall r :: r in runs ==> Explained(r)
    {
      hide Explained, TraceRead, Next;
      prior := [];
      var claimed := ClaimNextRun();
      if claimed.None? {
        return false, prior;
      }
      var i := claimed.value;
      ghost var was := old(runs)[i];
      var db := runs[i].db;
      var session := new RunExecutor.RunSession(runs[i].life.workflow, db);
      prior := session.ExecuteRun(script);
      assert session.log == TraceRead(PlanOf(was.life.workflow, db.ctx), db, prior, script);
      if Explained(was) {
        DispatchExplained(was, prior, script);
      }
      runs := runs[i := runs[i].(db := LastCommit(db, session.log),
                                 acts := runs[i].acts + [Claim] + [Execute(script, |session.log|)])];
      did := true;
    }
  }

  /** Apart from the order of its rows, a run of a workflow with one step per handler is what its history
      says. */
  ghost predicate Explained(r: Record) {
    DistinctHandlers(r.life.workflow.steps) ==> Shuffled(r.db, After(r.life, r.acts))
  }

  lemma DispatchExplained(r: Record, prior: seq<Row>, script: seq<Attempt>)
    requires Explained(r) && multiset(prior) == multiset(Next(r.life, r.db, Claim).work.rows)
    ensures var db := Next(r.life, r.db, Claim);
      var trace := TraceRead(PlanOf(r.life.workflow, db.ctx), db, prior, script);
      Explained(r.(db := LastCommit(db, trace), acts := r.acts + [Claim] + [Execute(script, |trace|)]))
  {
    hide After, TraceRead, LastCommit, DistinctHandlers;
    var db := Next(r.life, r.db, Claim);
    var trace := TraceRead(PlanOf(r.life.workflow, db.ctx), db, prior, script);
    if DistinctHandlers(r.life.workflow.steps) {
      AfterOne(r.life, r.acts, Claim);
      NextInAnyOrder(r.life, db, r.acts + [Claim], Execute(script, |trace|), prior);
      assert trace[..|trace|] == trace;
      AfterOne(r.life, r.acts + [Claim], Execute(script, |trace|));
    }
  }

  // ----- the whole system --------------------------------------------------------------------------

  /** The state the dispatch a runner holds started from. */
  function Base(s: System, h: Hold): Db
    requires h.id < |s.runs|
  {
    After(s.runs[h.id].life, s.runs[h.id].acts)
  }

  function TraceOf(s: System, h: Hold): seq<Event>
    requires h.id < |s.runs|
  {
    var base := Base(s, h);
    Trace(PlanOf(s.runs[h.id].life.workflow, base.ctx), base, h.script)
  }

  function Updated(s: System, id: nat, act: Act): System
    requires id < |s.runs|
  {
    var r := s.runs[id];
    s.(runs := s.runs[id := r.(db := Next(r.life, r.db, act), acts := r.acts + [act])])
  }

  /** The runner lets go of the run, which stays as it last committed it. */
  function Released(s: System, runner: nat): System
    requires runner in s.held && s.held[runner].id < |s.runs|
  {
    var h := s.held[runner];
    var r := s.runs[h.id];
    System(s.runs[h.id := r.(acts := r.acts + [Execute(h.script, h.done)])], s.held - {runner})
  }

  /** The system right after the executor's next event, before the runner lets go. */
  function Stepped(s: System, runner: nat): System
    requires runner in s.held && s.held[runner].id < |s.runs| && s.held[runner].done < |TraceOf(s, s.held[runner])|
  {
    var h := s.held[runner];
    var r := s.runs[h.id];
    var event := TraceOf(s, h)[h.done];
    System(s.runs[h.id := r.(db := if event.Commit? then event.db else r.db)],
           s.held[runner := h.(done := h.done + 1)])
  }

  /** The executor's next event; after its last one the runner is free. */
  function Worked(s: System, runner: nat): System
    requires runner in s.held && s.held[runner].id < |s.runs|
  {
    var h := s.held[runner];
    var trace := TraceOf(s, h);
    if h.done >= |trace| then Released(s, runner)
    else if h.done + 1 == |trace| then Released(Stepped(s, runner), runner)
    else Stepped(s, runner)
  }

  /** An API call only touches its run; while a runner holds a run its status is `scheduled` or
      `running`, so the history variable need not record refused calls. */
  function Called(s: System, id: nat, act: Act): System {
    if id >= |s.runs| || Next(s.runs[id].life, s.runs[id].db, act) == s.runs[id].db then s
    else Updated(s, id, act)
  }

  function Do(s: System, step: Step): System {
    match step
    case Create(life, now) =>
      if life.workflow.steps == [] then s else s.(runs := s.runs + [Record(life, now, Created(life), [])])
    case RetryCall(id) => Called(s, id, Retry)
    case ResumeCall(id, addUsd, addTime) => Called(s, id, Resume(addUsd, addTime))
    case ClaimBy(runner, script) =>
      var oldest := Oldest(s.runs, |s.runs|);
      if runner in s.held || oldest.None? then s
      else
        var claimed := Updated(s, oldest.value, Claim);
        claimed.(held := claimed.held[runner := Hold(oldest.value, script, 0)])
    case Work(runner) =>
      if runner in s.held && s.held[runner].id < |s.runs| then Worked(s, runner) else s
    case Die(runner) =>
      if runner in s.held && s.held[runner].id < |s.runs| then Released(s, runner) else s
  }

  function AfterSteps(steps: seq<Step>): System {
    if steps == [] then System([], map[])
    else Do(AfterSteps(steps[..|steps| - 1]), steps[|steps| - 1])
  }

  predicate Executing(status: RunStatus) {
    status.Scheduled? || status.Running?
  }

  ghost predicate HoldOk(s: System, h: Hold) {
    && h.id < |s.runs|
    && var r := s.runs[h.id];
    && Executing(r.db.status) && Executing(Base(s, h).status)
    && h.done < |TraceOf(s, h)|
    && r.db == Executed(r.life, Base(s, h), h.script, h.done)
  }

  /** No run has two runners; a held run is executing and is exactly as far as its runner's dispatch;
      every other run is in a state its own history explains. */
  ghost predicate Exclusive(s: System) {
    && (forall a, b :: a in s.held && b in s.held && a != b ==> s.held[a].id != s.held[b].id)
    && (forall a :: a in s.held ==> s.held[a].id < |s.runs|)
    && (forall a :: a in s.held ==> HoldOk(s, s.held[a]))
    && (forall i :: 0 <= i < |s.runs| && (forall a :: a in s.held ==> s.held[a].id != i) ==>
          s.runs[i].db == After(s.runs[i].life, s.runs[i].acts))
  }

  lemma AfterExecute(life: Life, acts: seq<Act>, script: seq<Attempt>, cut: nat)
    ensures After(life, acts + [Execute(script, cut)]) == Executed(life, After(life, acts), script, cut)
  {
    AfterOne(life, acts, Execute(script, cut));
  }

  /** A record other runners hold does not change when one record does. */
  lemma HoldKept(s: System, t: System, h: Hold)
    requires HoldOk(s, h) && h.id < |t.runs| && t.runs[h.id] == s.runs[h.id]
    ensures HoldOk(t, h)
  {}

  lemma UpdatedExclusive(s: System, id: nat, act: Act)
    requires Exclusive(s) && id < |s.runs|
    requires !Executing(s.runs[id].db.status)
    ensures Exclusive(Updated(s, id, act))
    ensures forall a :: a in s.held ==> s.held[a].id != id
  {
    hide HoldOk, After, Next;
    var t := Updated(s, id, act);
    forall a | a in s.held ensures s.held[a].id != id && HoldOk(t, t.held[a]) {
      HoldInside(s, s.held[a]);
      HoldKept(s, t, s.held[a]);
    }
    AfterOne(s.runs[id].life, s.runs[id].acts, act);
  }

  lemma ReleasedExclusive(s: System, runner: nat)
    requires runner in s.held && s.held[runner].id < |s.runs|
    requires forall a, b :: a in s.held && b in s.held && a != b ==> s.held[a].id != s.held[b].id
    requires forall a :: a in s.held ==> s.held[a].id < |s.runs|
    requires forall a :: a in s.held && a != runner ==> HoldOk(s, s.held[a])
    requires forall i :: 0 <= i < |s.runs| && (forall a :: a in s.held ==> s.held[a].id != i) ==>
      s.runs[i].db == After(s.runs[i].life, s.runs[i].acts)
    requires var h := s.held[runner];
      s.runs[h.id].db == Executed(s.runs[h.id].life, Base(s, h), h.script, h.done)
    ensures Exclusive(Released(s, runner))
  {
    hide HoldOk, After, Trace, Executed, TraceOf;
    var t := Released(s, runner);
    var h := s.held[runner];
    forall a | a in t.held ensures HoldOk(t, t.held[a]) {
      HoldKept(s, t, s.held[a]);
    }
    AfterExecute(s.runs[h.id].life, s.runs[h.id].acts, h.script, h.done);
    forall i | 0 <= i < |t.runs| && (forall a :: a in t.held ==> t.held[a].id != i)
      ensures t.runs[i].db == After(t.runs[i].life, t.runs[i].acts)
    {
      if i != h.id {
        forall a | a in s.held ensures s.held[a].id != i {
          assert a != runner ==> t.held[a] == s.held[a];
        }
      }
    }
  }

  lemma OneMoreEvent(base: Db, events: seq<Event>, n: nat)
    requires n < |events|
    ensures LastCommit(base, CutAt(events, n + 1)) ==
      if events[n].Commit? then events[n].db else LastCommit(base, CutAt(events, n))
  {
    assert events[..n + 1][..n] == events[..n];
  }

  lemma ExecutedOneMore(life: Life, base: Db, script: seq<Attempt>, n: nat)
    requires n < |Trace(PlanOf(life.workflow, base.ctx), base, script)|
    ensures var event := Trace(PlanOf(life.workflow, base.ctx), base, script)[n];
      Executed(life, base, script, n + 1) == if event.Commit? then event.db else Executed(life, base, script, n)
    ensures n + 1 < |Trace(PlanOf(life.workflow, base.ctx), base, script)| ==>
      Executed(life, base, script, n + 1).status.Running?
  {
    hide Trace, LastCommit, RunningUntilLast;
    var trace := Trace(PlanOf(life.workflow, base.ctx), base, script);
    OneMoreEvent(base, trace, n);
    if n + 1 < |trace| {
      DispatchRunning(PlanOf(life.workflow, base.ctx), base, script);
      TraceBegins(PlanOf(life.workflow, base.ctx), base, script);
      LastRunning(base, trace, n + 1);
    }
  }

  lemma SteppedOthers(s: System, runner: nat)
    requires Exclusive(s) && runner in s.held && HoldOk(s, s.held[runner])
    ensures var t := Stepped(s, runner);
      && (forall a, b :: a in t.held && b in t.held && a != b ==> t.held[a].id != t.held[b].id)
      && (forall a :: a in t.held ==> t.held[a].id < |t.runs|)
      && (forall a :: a in t.held && a != runner ==> HoldOk(t, t.held[a]))
      && (forall i :: 0 <= i < |t.runs| && (forall a :: a in t.held ==> t.held[a].id != i) ==>
            t.runs[i].db == After(t.runs[i].life, t.runs[i].acts))
  {
    hide HoldOk, After, TraceOf;
    HoldInside(s, s.held[runner]);
    var t := Stepped(s, runner);
    SteppedShape(s, runner);
    forall a | a in t.held && a != runner ensures HoldOk(t, t.held[a]) {
      HoldKept(s, t, s.held[a]);
    }
    forall i | 0 <= i < |t.runs| && (forall a :: a in t.held ==> t.held[a].id != i)
      ensures t.runs[i].db == After(t.runs[i].life, t.runs[i].acts)
    {
      assert t.held[runner].id != i;
      forall a | a in s.held ensures s.held[a].id != i {
        assert a in t.held && t.held[a].id == s.held[a].id;
      }
    }
  }

  /** A step changes the runner's own run and progress only. */
  lemma SteppedShape(s: System, runner: nat)
    requires runner in s.held && s.held[runner].id < |s.runs| && s.held[runner].done < |TraceOf(s, s.held[runner])|
    ensures var h, t := s.held[runner], Stepped(s, runner);
      && |t.runs| == |s.runs| && (forall i :: 0 <= i < |s.runs| && i != h.id ==> t.runs[i] == s.runs[i])
      && t.held.Keys == s.held.Keys && (forall a :: a in s.held && a != runner ==> t.held[a] == s.held[a])
      && t.held[runner].id == h.id
  {
    hide TraceOf;
  }

  lemma SteppedSelf(s: System, runner: nat)
    requires runner in s.held && HoldOk(s, s.held[runner])
    ensures var h, t := s.held[runner], Stepped(s, runner);
      && runner in t.held
      && var g := t.held[runner];
      && g == h.(done := h.done + 1) && Base(t, g) == Base(s, h) && TraceOf(t, g) == TraceOf(s, h)
      && t.runs[h.id].db == Executed(t.runs[h.id].life, Base(t, g), g.script, g.done)
      && (g.done < |TraceOf(t, g)| ==> HoldOk(t, g))
  {
    var h := s.held[runner];
    ExecutedOneMore(s.runs[h.id].life, Base(s, h), h.script, h.done);
  }

  lemma WorkedExclusive(s: System, runner: nat)
    requires Exclusive(s) && runner in s.held
    ensures s.held[runner].id < |s.runs| && Exclusive(Worked(s, runner))
  {
    hide HoldOk, After, TraceOf, Executed, Base, Exclusive, Stepped, Released;
    HeldIn(s, runner);
    HoldInside(s, s.held[runner]);
    SteppedOthers(s, runner);
    SteppedSelf(s, runner);
    var t := Stepped(s, runner);
    if t.held[runner].done == |TraceOf(s, s.held[runner])| {
      ReleasedExclusive(t, runner);
    } else {
      HoldersExclusive(t, runner);
    }
  }

  lemma HoldersExclusive(t: System, runner: nat)
    requires runner in t.held && HoldOk(t, t.held[runner])
    requires forall a, b :: a in t.held && b in t.held && a != b ==> t.held[a].id != t.held[b].id
    requires forall a :: a in t.held ==> t.held[a].id < |t.runs|
    requires forall a :: a in t.held && a != runner ==> HoldOk(t, t.held[a])
    requires forall i :: 0 <= i < |t.runs| && (forall a :: a in t.held ==> t.held[a].id != i) ==>
      t.runs[i].db == After(t.runs[i].life, t.runs[i].acts)
    ensures Exclusive(t)
  {
    hide HoldOk, After;
  }

  lemma HoldInside(s: System, h: Hold)
    requires HoldOk(s, h)
    ensures h.id < |s.runs| && h.done < |TraceOf(s, h)| && Executing(s.runs[h.id].db.status)
    ensures s.runs[h.id].db == Executed(s.runs[h.id].life, Base(s, h), h.script, h.done)
  {}

  lemma HeldClaim(s: System, id: nat, runner: nat, script: seq<Attempt>)
    requires Exclusive(s) && id < |s.runs| && runner !in s.held && s.runs[id].db.status.Scheduled?
    requires forall a :: a in s.held ==> s.held[a].id != id
    ensures Exclusive(s.(held := s.held[runner := Hold(id, script, 0)]))
  {
    hide HoldOk, After, Exclusive;
    var t := s.(held := s.held[runner := Hold(id, script, 0)]);
    FreeIn(s, id);
    NewHold(t, Hold(id, script, 0));
    forall a | a in t.held ensures t.held[a].id < |t.runs| && HoldOk(t, t.held[a]) {
      if a != runner {
        HeldIn(s, a);
        HoldKept(s, t, s.held[a]);
      }
    }
    forall a, b | a in t.held && b in t.held && a != b ensures t.held[a].id != t.held[b].id {
      if a != runner && b != runner {
        HeldApart(s, a, b);
      }
    }
    forall i | 0 <= i < |t.runs| && (forall a :: a in t.held ==> t.held[a].id != i)
      ensures t.runs[i].db == After(t.runs[i].life, t.runs[i].acts)
    {
      forall a | a in s.held ensures s.held[a].id != i {
        assert t.held[a].id != i;
      }
      FreeIn(s, i);
    }
    HoldersExclusive(t, runner);
  }

  lemma HeldApart(s: System, a: nat, b: nat)
    requires Exclusive(s) && a in s.held && b in s.held && a != b
    ensures s.held[a].id != s.held[b].id
  {}

  lemma FreeIn(s: System, i: nat)
    requires Exclusive(s) && i < |s.runs| && forall a :: a in s.held ==> s.held[a].id != i
    ensures s.runs[i].db == After(s.runs[i].life, s.runs[i].acts)
  {}

  lemma NewHold(s: System, h: Hold)
    requires h.id < |s.runs| && h.done == 0 && s.runs[h.id].db.status.Scheduled?
    requires s.runs[h.id].db == After(s.runs[h.id].life, s.runs[h.id].acts)
    ensures HoldOk(s, h)
  {}

  lemma ClaimedExclusive(s: System, runner: nat, script: seq<Attempt>)
    requires Exclusive(s)
    ensures Exclusive(Do(s, ClaimBy(runner, script)))
  {
    hide Exclusive, After;
    var oldest := Oldest(s.runs, |s.runs|);
    if runner !in s.held && oldest.Some? {
      assert s.runs[..|s.runs|] == s.runs;
      UpdatedExclusive(s, oldest.value, Claim);
      HeldClaim(Updated(s, oldest.value, Claim), oldest.value, runner, script);
    }
  }

  lemma DoCreate(s: System, life: Life, now: nat)
    ensures Do(s, Create(life, now)) ==
      if life.workflow.steps == [] then s else s.(runs := s.runs + [Record(life, now, Created(life), [])])
  {}

  lemma AfterNothing(life: Life)
    ensures After(life, []) == Created(life)
  {}

  lemma CreatedExclusive(s: System, life: Life, now: nat)
    requires Exclusive(s)
    ensures Exclusive(Do(s, Create(life, now)))
  {
    hide After, HoldOk, Created, Do;
    AfterNothing(life);
    DoCreate(s, life, now);
    var t := Do(s, Create(life, now));
    forall i | 0 <= i < |s.runs| && (forall a :: a in t.held ==> t.held[a].id != i)
      ensures t.runs[i].db == After(t.runs[i].life, t.runs[i].acts)
    {
      FreeIn(s, i);
    }
    forall a | a in t.held ensures HoldOk(t, t.held[a]) {
      HeldIn(s, a);
      HoldKept(s, t, s.held[a]);
    }
  }

  lemma HeldIn(s: System, runner: nat)
    requires Exclusive(s) && runner in s.held
    ensures s.held[runner].id < |s.runs| && HoldOk(s, s.held[runner])
  {}

  lemma DiedExclusive(s: System, runner: nat)
    requires Exclusive(s) && runner in s.held
    ensures s.held[runner].id < |s.runs| && Exclusive(Released(s, runner))
  {
    HeldIn(s, runner);
    HoldInside(s, s.held[runner]);
    hide HoldOk, After, Executed;
    ReleasedExclusive(s, runner);
  }

  lemma NothingYet()
    ensures Exclusive(System([], map[]))
  {}

  /** Over every interleaving of creations, API calls, claims, commits and deaths: a run never has
      two runners, and every run goes through a history of the single-run protocol, so everything
      proved there holds of each run here. */
  lemma {:induction false} AlwaysExclusive(steps: seq<Step>)
    ensures Exclusive(AfterSteps(steps))
  {
    hide Exclusive, After, Worked, Released, Created;
    if steps == [] {
      NothingYet();
    } else {
      var s := AfterSteps(steps[..|steps| - 1]);
      AlwaysExclusive(steps[..|steps| - 1]);
      match steps[|steps| - 1] {
        case Create(life, now) => CreatedExclusive(s, life, now);
        case RetryCall(id) =>
          if Called(s, id, Retry) != s {
            UpdatedExclusive(s, id, Retry);
          }
        case ResumeCall(id, addUsd, addTime) =>
          if Called(s, id, Resume(addUsd, addTime)) != s {
            UpdatedExclusive(s, id, Resume(addUsd, addTime));
          }
        case ClaimBy(runner, script) => ClaimedExclusive(s, runner, script);
        case Work(runner) =>
          if runner in s.held {
            WorkedExclusive(s, runner);
          }
        case Die(runner) =>
          if runner in s.held {
            DiedExclusive(s, runner);
          }
      }
    }
  }

  /** Every run of the system, held or not, is in a state the single-run protocol can reach. */
  lemma EachRunReachable(steps: seq<Step>, i: nat) returns (acts: seq<Act>)
    requires i < |AfterSteps(steps).runs|
    ensures AfterSteps(steps).runs[i].db == After(AfterSteps(steps).runs[i].life, acts)
  {
    hide AfterSteps, After, Exclusive;
    AlwaysExclusive(steps);
    acts := RunReachable(AfterSteps(steps), i);
  }

  lemma RunReachable(s: System, i: nat) returns (acts: seq<Act>)
    requires Exclusive(s) && i < |s.runs|
    ensures s.runs[i].db == After(s.runs[i].life, acts)
  {
    hide After, HoldOk;
    acts := s.runs[i].acts;
    if exists a :: a in s.held && s.held[a].id == i {
      var a :| a in s.held && s.held[a].id == i;
      HoldReachable(s, s.held[a]);
      acts := acts + [Execute(s.held[a].script, s.held[a].done)];
    }
  }

  lemma HoldReachable(s: System, h: Hold)
    requires HoldOk(s, h)
    ensures h.id < |s.runs|
    ensures s.runs[h.id].db == After(s.runs[h.id].life, s.runs[h.id].acts + [Execute(h.script, h.done)])
  {
    hide After, Executed, TraceOf;
    AfterExecute(s.runs[h.id].life, s.runs[h.id].acts, h.script, h.done);
  }

  /** The changes of a run's status a step may make. */
  predicate LegalChange(s: System, step: Step, i: nat, was: RunStatus, now: RunStatus) {
    || was == now
    || (now.Pending? && ((step == RetryCall(i) && (was.Failed? || was.Cancelled?)) ||
                         (step.ResumeCall? && step.id == i && was.Paused?)))
    || (now.Scheduled? && was.Pending? && step.ClaimBy? && IsOldest(s.runs, i))
    || ((now.Running? || now.Paused? || now.Failed? || now.Succeeded?) && Executing(was) && step.Work? &&
        step.runner in s.held && s.held[step.runner].id == i)
  }

  /** Which steps change a run's status, and how: `pending` is entered only by creating, by retrying a
      failed or cancelled run or by resuming a paused one; `scheduled` only by claiming the oldest
      pending run; any other change is a commit of the run's own executor, out of `scheduled` or
      `running`. So `succeeded` is never left, and nothing but its executor moves an executing run. */
  lemma LegalTransitions(steps: seq<Step>, step: Step, i: nat)
    requires i < |AfterSteps(steps).runs|
    ensures i < |AfterSteps(steps + [step]).runs|
    ensures LegalChange(AfterSteps(steps), step, i, AfterSteps(steps).runs[i].db.status,
                        AfterSteps(steps + [step]).runs[i].db.status)
  {
    hide Do, Exclusive, LegalChange;
    assert (steps + [step])[..|steps|] == steps;
    AlwaysExclusive(steps);
    LegalStep(AfterSteps(steps), step, i);
  }

  lemma LegalStep(s: System, step: Step, i: nat)
    requires Exclusive(s) && i < |s.runs|
    ensures i < |Do(s, step).runs| && LegalChange(s, step, i, s.runs[i].db.status, Do(s, step).runs[i].db.status)
  {
    hide Executed, After, Exclusive, Worked;
    match step {
      case ClaimBy(runner, script) =>
        assert s.runs[..|s.runs|] == s.runs;
      case Work(runner) =>
        if runner in s.held {
          WorkedStatus(s, runner);
        }
      case _ =>
    }
  }

  lemma WorkedStatus(s: System, runner: nat)
    requires Exclusive(s) && runner in s.held
    ensures var h := s.held[runner];
      && h.id < |s.runs| && |Worked(s, runner).runs| == |s.runs|
      && (forall i :: 0 <= i < |s.runs| && i != h.id ==> Worked(s, runner).runs[i] == s.runs[i])
      && Executing(s.runs[h.id].db.status)
      && var now := Worked(s, runner).runs[h.id].db.status;
      && (now == s.runs[h.id].db.status || now.Running? || now.Paused? || now.Failed? || now.Succeeded?)
  {
    hide Executed, After;
    var h := s.held[runner];
    assert HoldOk(s, h);
    var trace := TraceOf(s, h);
    CommittedStatuses(PlanOf(s.runs[h.id].life.workflow, Base(s, h).ctx), Base(s, h), h.script);
    assert trace[h.done] in trace;
  }

  // ----- the statuses an executor commits -----------------------------------------------------------

  predicate ExecutorStatuses(events: seq<Event>) {
    forall e :: e in events && e.Commit? ==>
      e.db.status.Running? || e.db.status.Paused? || e.db.status.Failed? || e.db.status.Succeeded?
  }

  lemma CellStatuses(m: Machine, db: Db, it: nat, pos: nat, attempt: Attempt)
    requires pos < |m.plan.steps| && db.status.Running?
    ensures ExecutorStatuses(CellFrom(m, db, it, pos, attempt).trail)
    ensures var next := CellFrom(m, db, it, pos, attempt).next; next.Some? ==> next.value.status.Running?
  {
    SavesRunning(OpenedDb(m, db, it, pos), attempt.saves);
  }

  lemma {:induction false} FromStatuses(m: Machine, db: Db, it: nat, pos: nat, script: seq<Attempt>)
    requires pos <= |m.plan.steps| && db.status.Running?
    ensures ExecutorStatuses(From(m, db, it, pos, script))
    decreases m.plan.iterations - it, |m.plan.steps| - pos
  {
    hide CellFrom;
    if it >= m.plan.iterations {
    } else if pos == |m.plan.steps| {
      FromStatuses(m, IterationEndDb(m, db, it), it + 1, 0, script);
    } else if SucceededAt(db.work.rows, it, pos) {
      FromStatuses(m, db, it, pos + 1, script);
    } else if !CapReached(m, db.work.rows) {
      var cell := CellFrom(m, db, it, pos, NextAttempt(script));
      CellStatuses(m, db, it, pos, NextAttempt(script));
      if cell.next.Some? {
        FromStatuses(m, cell.next.value, it, pos + 1, Later(script));
      }
    }
  }

  lemma CommittedStatuses(plan: Plan, db: Db, script: seq<Attempt>)
    ensures ExecutorStatuses(Trace(plan, db, script))
  {
    FromStatuses(MachineOf(plan, db), ReplayedDb(plan, db), 0, 0, script);
  }
}
