/** Where in the grid every event of a dispatch belongs. */
module RunMoves {
  import opened Options
  import opened RunModel
  import opened RunReference
  import opened RunProtocol
  import RunExecutor
  import RunTheorems

  function Drop<T>(s: seq<T>, n: nat): seq<T> {
    if n <= |s| then s[n..] else []
  }

  function CallCount(events: seq<Event>): nat {
    if events == [] then 0
    else CallCount(events[..|events| - 1]) + if events[|events| - 1].Called? then 1 else 0
  }

  lemma {:induction false} CallCountJoin(a: seq<Event>, b: seq<Event>)
    ensures CallCount(a + b) == CallCount(a) + CallCount(b)
  {
    if b == [] {
      assert a + b == a;
    } else {
      CallCountJoin(a, b[..|b| - 1]);
      assert (a + b)[..|a + b| - 1] == a + b[..|b| - 1];
    }
  }

  lemma {:induction false} CommitsOnly(events: seq<Event>)
    requires forall e :: e in events ==> e.Commit?
    ensures CallCount(events) == 0
  {
    if events != [] {
      assert events[|events| - 1] in events;
      CommitsOnly(events[..|events| - 1]);
    }
  }

  lemma {:induction false} LastCommitJoin(db: Db, a: seq<Event>, b: seq<Event>)
    ensures LastCommit(db, a + b) == LastCommit(LastCommit(db, a), b)
  {
    if b == [] {
      assert a + b == a;
    } else {
      LastCommitJoin(db, a, b[..|b| - 1]);
      assert (a + b)[..|a + b| - 1] == a + b[..|b| - 1];
    }
  }

  /** The executor is about to look at a cell, after `calls` calls. */
  datatype Place = Place(db: Db, it: nat, pos: nat, calls: nat)

  /** What the executor does at a cell it does not skip. */
  function Segment(m: Machine, db: Db, it: nat, pos: nat, attempt: Attempt): seq<Event>
    requires pos <= |m.plan.steps|
  {
    if it >= m.plan.iterations then [Commit(SucceededDb(m, db))]
    else if pos == |m.plan.steps| then [Commit(IterationEndDb(m, db, it))]
    else if CapReached(m, db.work.rows) then [Commit(PausedDb(m, db, Cost, it))]
    else CellFrom(m, db, it, pos, attempt).trail
  }

  /** The context is the one the dispatch began with until the first iteration ends. */
  predicate ContextAt(m: Machine, start: Context, ctx: Context, it: nat) {
    if it == 0 then ctx == start
    else
      && ctx == m.ctx.(iterations := m.plan.iterations, budget := Some(m.budget), timeout := Some(m.timeout),
                       iterationsDone := Some(it), spent := ctx.spent)
  }

  ghost predicate Stands(life: Life, m: Machine, start: Context, at: Place, fi: nat, fp: nat) {
    && Walking(life, m, at.db, at.it, at.pos, fi, fp) && (at.it >= m.plan.iterations ==> at.pos == 0)
    && at.pos <= |m.plan.steps|
    && ContextAt(m, start, at.db.ctx, at.it)
  }

  /** From event `base` on, the events are those from this place on. */
  ghost predicate Reached(m: Machine, db: Db, script: seq<Attempt>, events: seq<Event>, base: nat, at: Place) {
    && base <= |events| && at.pos <= |m.plan.steps|
    && events[base..] == From(m, at.db, at.it, at.pos, Drop(script, at.calls))
    && LastCommit(db, events[..base]) == at.db
    && CallCount(events[..base]) == at.calls
  }

  /** The executor looks at a cell it does not skip. */
  predicate Halts(m: Machine, at: Place) {
    at.it < m.plan.iterations && at.pos < |m.plan.steps| ==> !SucceededAt(at.db.work.rows, at.it, at.pos)
  }

  lemma ReachedNow(m: Machine, at: Place, script: seq<Attempt>)
    requires at.pos <= |m.plan.steps| && at.calls == 0
    ensures Reached(m, at.db, script, From(m, at.db, at.it, at.pos, script), 0, at)
  {
    hide From;
  }

  lemma ReachedLater(m: Machine, db: Db, script: seq<Attempt>, front: seq<Event>, next: Place, tail: seq<Event>, base: nat, at: Place)
    requires Reached(m, next.db, Drop(script, next.calls), tail, base, at)
    requires LastCommit(db, front) == next.db && CallCount(front) == next.calls
    ensures Reached(m, db, script, front + tail, |front| + base, at.(calls := next.calls + at.calls))
  {
    hide From;
    var events := front + tail;
    assert events[|front| + base..] == tail[base..];
    assert events[..|front| + base] == front + tail[..base];
    LastCommitJoin(db, front, tail[..base]);
    CallCountJoin(front, tail[..base]);
    assert Drop(Drop(script, next.calls), at.calls) == Drop(script, next.calls + at.calls);
  }

  lemma CellCalls(m: Machine, db: Db, it: nat, pos: nat, attempt: Attempt)
    requires pos < |m.plan.steps|
    ensures CallCount(CellFrom(m, db, it, pos, attempt).trail) == 1
    ensures var cell := CellFrom(m, db, it, pos, attempt);
      cell.next.Some? ==> LastCommit(db, cell.trail) == cell.next.value
  {
    hide ResultAt, CallAt, SaveTrail, AfterSaves, Absorbed, RaisedDb, PausedDb, FailedDb;
    var begun := OpenedDb(m, db, it, pos);
    var saved := begun.(work := AfterSaves(begun.work, attempt.saves));
    var opening := [Commit(begun), Called(CallAt(m, db.work.rows, it, pos))];
    var rest := EndingFrom(m, saved, it, ResultAt(m.plan, db.work.rows, it, pos), attempt.ending);
    RunTheorems.SavesCallNothing(begun, attempt.saves);
    CommitsOnly(SaveTrail(begun, attempt.saves));
    CommitsOnly(rest.trail);
    assert opening[..1] == [Commit(begun)];
    CallCountJoin(opening, SaveTrail(begun, attempt.saves));
    CallCountJoin(opening + SaveTrail(begun, attempt.saves), rest.trail);
    if rest.next.Some? {
      RunTheorems.CommitLast(db, opening + SaveTrail(begun, attempt.saves), rest.next.value);
    }
  }

  /** How the executor goes on after a segment that does not end the dispatch. */
  function Onward(m: Machine, at: Place, attempt: Attempt): Option<Place>
    requires at.pos <= |m.plan.steps|
  {
    if at.it >= m.plan.iterations then None
    else if at.pos == |m.plan.steps| then Some(Place(IterationEndDb(m, at.db, at.it), at.it + 1, 0, at.calls))
    else if CapReached(m, at.db.work.rows) then None
    else
      var cell := CellFrom(m, at.db, at.it, at.pos, attempt);
      if cell.next.None? then None else Some(Place(cell.next.value, at.it, at.pos + 1, at.calls + 1))
  }

  lemma SegmentThen(m: Machine, at: Place, script: seq<Attempt>)
    requires at.pos <= |m.plan.steps| && Halts(m, at) && (at.it >= m.plan.iterations ==> at.pos == 0)
    ensures var here, onward := Drop(script, at.calls), Onward(m, at, NextAttempt(Drop(script, at.calls)));
      && From(m, at.db, at.it, at.pos, here) == Segment(m, at.db, at.it, at.pos, NextAttempt(here)) + (
           if onward.None? then []
           else From(m, onward.value.db, onward.value.it, onward.value.pos, Drop(script, onward.value.calls)))
      && (onward.Some? ==>
            var seg := Segment(m, at.db, at.it, at.pos, NextAttempt(here));
            LastCommit(at.db, seg) == onward.value.db && at.calls + CallCount(seg) == onward.value.calls)
  {
    hide CellFrom, Spend, SucceededAt, From, IterationEndDb, PausedDb, SucceededDb;
    var here := Drop(script, at.calls);
    assert Later(here) == Drop(script, at.calls + 1);
    if at.it >= m.plan.iterations {
      RunExecutor.UnfoldLast(m, at.db, at.it, here);
    } else if at.pos == |m.plan.steps| {
      RunExecutor.UnfoldEnd(m, at.db, at.it, here);
      RunTheorems.CommitLast(at.db, [], IterationEndDb(m, at.db, at.it));
      assert [] + [Commit(IterationEndDb(m, at.db, at.it))] == [Commit(IterationEndDb(m, at.db, at.it))];
      CommitsOnly([Commit(IterationEndDb(m, at.db, at.it))]);
    } else {
      RunExecutor.Unfold(m, at.db, at.it, at.pos, here);
      CellCalls(m, at.db, at.it, at.pos, NextAttempt(here));
      var seg := Segment(m, at.db, at.it, at.pos, NextAttempt(here));
      assert seg + [] == seg;
    }
  }

  lemma OnwardStands(life: Life, m: Machine, start: Context, at: Place, attempt: Attempt, fi: nat, fp: nat)
    returns (gi: nat, gp: nat)
    requires Stands(life, m, start, at, fi, fp) && Halts(m, at) && Onward(m, at, attempt).Some?
    ensures Stands(life, m, start, Onward(m, at, attempt).value, gi, gp)
  {
    hide Walking, HoldsAt, SucceededAt, CellFrom, Spend, Reference, MachineOk;
    Located(life, m, at.db, at.it, at.pos, fi, fp);
    gi, gp := fi, fp;
    if at.pos == |m.plan.steps| {
      IterationEndWalks(life, m, at.db, at.it, fi, fp);
      if fi == at.it {
        gi, gp := at.it + 1, 0;
      }
    } else {
      CellHolds(life, m, at.db, at.it, at.pos, attempt);
      CellKeepsContext(m, at.db, at.it, at.pos, attempt);
      gi, gp := at.it, at.pos + 1;
    }
  }

  lemma CellKeepsContext(m: Machine, db: Db, it: nat, pos: nat, attempt: Attempt)
    requires pos < |m.plan.steps|
    ensures var cell := CellFrom(m, db, it, pos, attempt);
      cell.next.Some? ==> cell.next.value.ctx == db.ctx && cell.next.value.status == db.status
  {
    hide ResultAt, CallAt, SaveTrail, AfterSaves, Absorbed;
  }

  /** Every event belongs to what the executor does at one cell. */
  lemma {:induction false} FromSegment(life: Life, m: Machine, start: Context, at0: Place, script: seq<Attempt>, fi0: nat, fp0: nat, k: nat)
    returns (base: nat, at: Place, fi: nat, fp: nat)
    requires Stands(life, m, start, at0, fi0, fp0) && at0.calls == 0
    requires k < |From(m, at0.db, at0.it, at0.pos, script)|
    ensures Stands(life, m, start, at, fi, fp) && Halts(m, at)
    ensures Reached(m, at0.db, script, From(m, at0.db, at0.it, at0.pos, script), base, at)
    ensures base <= k < base + |Segment(m, at.db, at.it, at.pos, NextAttempt(Drop(script, at.calls)))|
    decreases m.plan.iterations - at0.it, |m.plan.steps| - at0.pos
  {
    hide Walking, HoldsAt, SucceededAt, CellFrom, Spend, Reference, MachineOk, From, CapReached, IterationEndDb, PausedDb, SucceededDb;
    var db, it, pos := at0.db, at0.it, at0.pos;
    var events := From(m, db, it, pos, script);
    assert Drop(script, 0) == script;
    StandsLocated(life, m, start, at0, fi0, fp0);
    if it < m.plan.iterations && pos < |m.plan.steps| && SucceededAt(db.work.rows, it, pos) {
      RunExecutor.Unfold(m, db, it, pos, script);
      base, at, fi, fp := FromSegment(life, m, start, at0.(pos := pos + 1), script, fi0, fp0, k);
    } else {
      var attempt := NextAttempt(script);
      var seg := Segment(m, db, it, pos, attempt);
      SegmentThen(m, at0, script);
      if k < |seg| {
        base, at, fi, fp := 0, at0, fi0, fp0;
        ReachedNow(m, at0, script);
      } else {
        var next := Onward(m, at0, attempt).value;
        var gi, gp := OnwardStands(life, m, start, at0, attempt, fi0, fp0);
        var later := Drop(script, next.calls);
        var b, p, hi, hp := FromSegment(life, m, start, next.(calls := 0), later, gi, gp, k - |seg|);
        base, at, fi, fp := |seg| + b, p.(calls := next.calls + p.calls), hi, hp;
        ReachedLater(m, db, script, seg, next, From(m, next.db, next.it, next.pos, later), b, p);
        assert Drop(later, p.calls) == Drop(script, at.calls);
      }
    }
  }

  lemma StandsLocated(life: Life, m: Machine, start: Context, at: Place, fi: nat, fp: nat)
    requires Stands(life, m, start, at, fi, fp)
    ensures at.it < m.plan.iterations && at.pos < |m.plan.steps| && SucceededAt(at.db.work.rows, at.it, at.pos) ==>
      Stands(life, m, start, at.(pos := at.pos + 1), fi, fp)
    ensures at.it < m.plan.iterations && at.pos < |m.plan.steps| && !SucceededAt(at.db.work.rows, at.it, at.pos) ==>
      (at.it, at.pos) == (fi, fp)
    ensures at.it >= m.plan.iterations ==> (fi, fp) == (at.it, 0)
    ensures MachineOk(life, m) && m.plan == PlanFor(life)
  {
    hide Reference, Matches, Spend, SucceededAt, AllEvaluated;
    Located(life, m, at.db, at.it, at.pos, fi, fp);
  }

  // ----- a whole dispatch ---------------------------------------------------------------------------

  /** A dispatch from a reachable state, with where its events come from. */
  ghost predicate Dispatched(life: Life, db: Db, script: seq<Attempt>, base: nat, at: Place, fi: nat, fp: nat) {
    var plan := PlanFor(life);
    var m := MachineOf(plan, db);
    && Stands(life, m, db.ctx, at, fi, fp) && Halts(m, at)
    && base >= 2 && Reached(m, db, script, Trace(plan, db, script), base, at)
  }

  lemma TraceSegment(life: Life, db: Db, script: seq<Attempt>, k: nat)
    returns (base: nat, at: Place, fi: nat, fp: nat)
    requires Holds(life, db) && 2 <= k < |Trace(PlanFor(life), db, script)|
    ensures Dispatched(life, db, script, base, at, fi, fp)
    ensures base <= k < base + |Segment(MachineOf(PlanFor(life), db), at.db, at.it, at.pos, NextAttempt(Drop(script, at.calls)))|
  {
    hide Walking, HoldsAt, From, Halts, Segment;
    var plan := PlanFor(life);
    var gi, gp :| HoldsAt(life, db, gi, gp);
    BeginWalks(life, db, gi, gp);
    var m, replayed := MachineOf(plan, db), ReplayedDb(plan, db);
    var front := [Commit(StartedDb(db)), Commit(replayed)];
    var at0 := Place(replayed, 0, 0, 0);
    StandsFirst(life, m, db, gi, gp);
    var b, p, hi, hp := FromSegment(life, m, db.ctx, at0, script, gi, gp, k - 2);
    base, at, fi, fp := b + 2, p, hi, hp;
    CommitsOnly(front);
    RunTheorems.CommitLast(db, [Commit(StartedDb(db))], replayed);
    assert [Commit(StartedDb(db))] + [Commit(replayed)] == front;
    assert Drop(script, 0) == script;
    ReachedLater(m, db, script, front, at0, From(m, replayed, 0, 0, script), b, p);
    assert p.(calls := 0 + p.calls) == p;
  }

  lemma StandsFirst(life: Life, m: Machine, db: Db, fi: nat, fp: nat)
    requires Walking(life, m, ReplayedDb(PlanFor(life), db), 0, 0, fi, fp)
    ensures Stands(life, m, db.ctx, Place(ReplayedDb(PlanFor(life), db), 0, 0, 0), fi, fp)
  {
    hide Walking;
  }

  /** What follows the segment. */
  lemma SegmentSplits(life: Life, db: Db, script: seq<Attempt>, base: nat, at: Place, fi: nat, fp: nat)
    requires Dispatched(life, db, script, base, at, fi, fp)
    ensures var plan := PlanFor(life);
      var m := MachineOf(plan, db);
      var attempt := NextAttempt(Drop(script, at.calls));
      var onward := Onward(m, at, attempt);
      && Trace(plan, db, script)[base..] == Segment(m, at.db, at.it, at.pos, attempt) + (
           if onward.None? then []
           else From(m, onward.value.db, onward.value.it, onward.value.pos, Drop(script, onward.value.calls)))
  {
    hide Walking, From, Segment, Onward, Trace, Halts;
    SegmentThen(MachineOf(PlanFor(life), db), at, script);
  }
}
