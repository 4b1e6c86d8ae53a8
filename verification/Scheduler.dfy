/** The greedy planner: highest-priority task first, first worker that fits. */
module Scheduler {
  import opened Picking
  import opened Sorting

  type Resources = map<string, int>
  type Labels = map<string, string>

  /** A UUID orders as a number exactly as its string does, so ids are numbers. */
  datatype Task = Task(id: nat, priority: int, requirements: Resources, labels: Labels)

  datatype Worker = Worker(id: nat, resources: Resources, labels: Labels, healthy: bool)

  datatype Assignment = Assignment(taskId: nat, workerId: nat)

  function Get(avail: Resources, key: string): int {
    if key in avail then avail[key] else 0
  }

  predicate Fits(requirements: Resources, avail: Resources) {
    forall k :: k in requirements ==> Get(avail, k) >= requirements[k]
  }

  predicate LabelsMatch(required: Labels, have: Labels) {
    forall k :: k in required ==> k in have && have[k] == required[k]
  }

  /** The sort key `(-priority, str(task_id))`. */
  predicate Sooner(a: Task, b: Task) {
    a.priority > b.priority || (a.priority == b.priority && a.id <= b.id)
  }

  function Healthy(workers: seq<Worker>): seq<Worker> {
    if workers == [] then []
    else
      var n := |workers| - 1;
      if workers[n].healthy then Healthy(workers[..n]) + [workers[n]] else Healthy(workers[..n])
  }

  function Deducted(avail: Resources, requirements: Resources): (left: Resources)
    ensures forall k :: Get(left, k) == Get(avail, k) - Get(requirements, k)
  {
    map k | k in avail.Keys + requirements.Keys :: Get(avail, k) - Get(requirements, k)
  }

  /** What worker `w` has left after the tasks have been placed as `choices` says. A choice that is
      not a worker's index leaves the task unassigned. */
  function Remaining(tasks: seq<Task>, choices: seq<nat>, resources: Resources, w: nat): Resources
    requires |tasks| == |choices|
  {
    if tasks == [] then resources
    else
      var n := |tasks| - 1;
      var before := Remaining(tasks[..n], choices[..n], resources, w);
      if choices[n] == w then Deducted(before, tasks[n].requirements) else before
  }

  predicate Admits(task: Task, worker: Worker, avail: Resources) {
    LabelsMatch(task.labels, worker.labels) && Fits(task.requirements, avail)
  }

  /** The first worker at or after `from` that admits the task; the number of workers when none does. */
  function FirstFit(task: Task, workers: seq<Worker>, tasks: seq<Task>, choices: seq<nat>, from: nat): (w: nat)
    requires |tasks| == |choices| && from <= |workers|
    ensures from <= w <= |workers|
    ensures forall i :: from <= i < w ==> !Admits(task, workers[i], Remaining(tasks, choices, workers[i].resources, i))
    ensures w < |workers| ==> Admits(task, workers[w], Remaining(tasks, choices, workers[w].resources, w))
    decreases |workers| - from
  {
    if from == |workers| then from
    else if Admits(task, workers[from], Remaining(tasks, choices, workers[from].resources, from)) then from
    else FirstFit(task, workers, tasks, choices, from + 1)
  }

  /** The greedy choices, one task after the other. */
  function Choices(tasks: seq<Task>, workers: seq<Worker>): (c: seq<nat>)
    ensures |c| == |tasks|
  {
    if tasks == [] then []
    else
      var n := |tasks| - 1;
      var before := Choices(tasks[..n], workers);
      before + [FirstFit(tasks[n], workers, tasks[..n], before, 0)]
  }

  function Placed(tasks: seq<Task>, choices: seq<nat>, workers: seq<Worker>): seq<Assignment>
    requires |tasks| == |choices|
  {
    if tasks == [] then []
    else
      var n := |tasks| - 1;
      var before := Placed(tasks[..n], choices[..n], workers);
      if choices[n] < |workers| then before + [Assignment(tasks[n].id, workers[choices[n]].id)] else before
  }

  /** What the planner returns. */
  function PlanSpec(tasks: seq<Task>, workers: seq<Worker>): seq<Assignment> {
    var order, ws := Sorted(tasks, Sooner), Healthy(workers);
    Placed(order, Choices(order, ws), ws)
  }

  predicate DistinctWorkers(workers: seq<Worker>) {
    forall i, j :: 0 <= i < j < |workers| ==> workers[i].id != workers[j].id
  }

  // ----- the planner as the source writes it -----------------------------------------------------

  method Deduct(remaining: Resources, requirements: Resources) returns (left: Resources)
    ensures left == Deducted(remaining, requirements)
  {
    hide Partly, Deducted, Get;
    left := remaining;
    var todo := requirements.Keys;
    PartlyEnds(remaining, requirements);
    while todo != {}
      invariant todo <= requirements.Keys
      invariant left == Partly(remaining, requirements, todo)
      decreases |todo|
    {
      var k :| k in todo;
      PartlyStep(remaining, requirements, todo, k);
      left := left[k := Get(left, k) - requirements[k]];
      todo := todo - {k};
    }
  }

  /** Deducted except for the keys in `todo`. */
  function Partly(remaining: Resources, requirements: Resources, todo: set<string>): Resources {
    map k | k in remaining.Keys + (requirements.Keys - todo) ::
      if k in todo then Get(remaining, k) else Get(remaining, k) - Get(requirements, k)
  }

  lemma PartlyStep(remaining: Resources, requirements: Resources, todo: set<string>, k: string)
    requires k in todo && k in requirements
    ensures var left := Partly(remaining, requirements, todo);
      Partly(remaining, requirements, todo - {k}) == left[k := Get(left, k) - requirements[k]]
  {
    var left := Partly(remaining, requirements, todo);
    assert Get(left, k) == Get(remaining, k);
  }

  lemma PartlyEnds(remaining: Resources, requirements: Resources)
    ensures Partly(remaining, requirements, requirements.Keys) == remaining
    ensures Partly(remaining, requirements, {}) == Deducted(remaining, requirements)
  {}

  method HealthyWorkers(workers: seq<Worker>) returns (ws: seq<Worker>, avail: seq<Resources>)
    ensures ws == Healthy(workers)
    ensures |avail| == |ws| && forall i :: 0 <= i < |ws| ==> avail[i] == ws[i].resources
  {
    ws, avail := [], [];
    for i := 0 to |workers|
      invariant ws == Healthy(workers[..i])
      invariant |avail| == |ws| && forall j :: 0 <= j < |ws| ==> avail[j] == ws[j].resources
    {
      assert workers[..i + 1][..i] == workers[..i];
      if workers[i].healthy {
        ws := ws + [workers[i]];
        avail := avail + [workers[i].resources];
      }
    }
    assert workers[..|workers|] == workers;
  }

  /** `GreedyScheduler.plan`. */
  method Plan(tasks: seq<Task>, workers: seq<Worker>) returns (assignments: seq<Assignment>)
    requires DistinctWorkers(workers)
    ensures assignments == PlanSpec(tasks, workers)
  {
    hide FirstFit, Choices, Remaining, Placed, Deducted, Fits, LabelsMatch, Sorted, Healthy;
    var ws, avail := HealthyWorkers(workers);
    assignments := [];
    var order := Sorted(tasks, Sooner);
    ghost var choices: seq<nat> := [];
    NothingPlaced(ws);
    for i := 0 to |order|
      invariant |choices| == i && choices == Choices(order[..i], ws)
      invariant |avail| == |ws|
      invariant forall w :: 0 <= w < |ws| ==> avail[w] == Remaining(order[..i], choices, ws[w].resources, w)
      invariant assignments == Placed(order[..i], choices, ws)
    {
      var task := order[i];
      var w := 0;
      while w < |ws| && !(LabelsMatch(task.labels, ws[w].labels) && Fits(task.requirements, avail[w]))
        invariant w <= |ws|
        invariant FirstFit(task, ws, order[..i], choices, 0) == FirstFit(task, ws, order[..i], choices, w)
      {
        FitStep(task, ws, order[..i], choices, w);
        w := w + 1;
      }
      FitStep(task, ws, order[..i], choices, w);
      PlaceStep(order, i, ws, choices, w);
      choices := choices + [w];
      if w < |ws| {
        var left := Deduct(avail[w], task.requirements);
        avail := avail[w := left];
        assignments := assignments + [Assignment(task.id, ws[w].id)];
      }
    }
    assert order[..|order|] == order;
  }

  lemma NothingPlaced(workers: seq<Worker>)
    ensures Choices([], workers) == [] && Placed([], [], workers) == []
    ensures forall r, w :: Remaining([], [], r, w) == r
  {}

  lemma FitStep(task: Task, workers: seq<Worker>, tasks: seq<Task>, choices: seq<nat>, w: nat)
    requires |tasks| == |choices| && w <= |workers|
    ensures FirstFit(task, workers, tasks, choices, w) ==
      if w == |workers| then w
      else if LabelsMatch(task.labels, workers[w].labels) &&
              Fits(task.requirements, Remaining(tasks, choices, workers[w].resources, w)) then w
      else FirstFit(task, workers, tasks, choices, w + 1)
  {}

  lemma RemainingStep(tasks: seq<Task>, choices: seq<nat>, task: Task, w: nat, r: Resources, v: nat)
    requires |tasks| == |choices|
    ensures Remaining(tasks + [task], choices + [w], r, v) ==
      if v == w then Deducted(Remaining(tasks, choices, r, v), task.requirements) else Remaining(tasks, choices, r, v)
  {
    assert (tasks + [task])[..|tasks|] == tasks && (choices + [w])[..|tasks|] == choices;
  }

  lemma PlacedStep(tasks: seq<Task>, choices: seq<nat>, workers: seq<Worker>, task: Task, w: nat)
    requires |tasks| == |choices|
    ensures Placed(tasks + [task], choices + [w], workers) ==
      var before := Placed(tasks, choices, workers);
      if w < |workers| then before + [Assignment(task.id, workers[w].id)] else before
  {
    assert (tasks + [task])[..|tasks|] == tasks && (choices + [w])[..|tasks|] == choices;
  }

  lemma PlaceStep(order: seq<Task>, i: nat, workers: seq<Worker>, choices: seq<nat>, w: nat)
    requires i < |order| && |choices| == i && choices == Choices(order[..i], workers)
    requires w == FirstFit(order[i], workers, order[..i], choices, 0)
    ensures Choices(order[..i + 1], workers) == choices + [w]
    ensures forall r, v ::
      (Remaining(order[..i + 1], choices + [w], r, v) ==
       if v == w then Deducted(Remaining(order[..i], choices, r, v), order[i].requirements)
       else Remaining(order[..i], choices, r, v))
    ensures Placed(order[..i + 1], choices + [w], workers) ==
      var before := Placed(order[..i], choices, workers);
      if w < |workers| then before + [Assignment(order[i].id, workers[w].id)] else before
  {
    hide Remaining, Placed, FirstFit, Deducted;
    assert order[..i + 1] == order[..i] + [order[i]] && order[..i + 1][..i] == order[..i];
    forall r, v {
      RemainingStep(order[..i], choices, order[i], w, r, v);
    }
    PlacedStep(order[..i], choices, workers, order[i], w);
  }

  // ----- what the plan is ----------------------------------------------------------------------------

  /** What a task asks for of a resource, 0 when it does not name it. */
  function Asks(task: Task, key: string): int {
    if key in task.requirements then task.requirements[key] else 0
  }

  /** What a worker advertises of a resource, 0 when it does not name it. */
  function Offers(worker: Worker, key: string): int {
    if key in worker.resources then worker.resources[key] else 0
  }

  /** The worker has every label the task asks for, with the value it asks for. */
  predicate Carries(worker: Worker, task: Task) {
    forall k :: k in task.labels ==> k in worker.labels && worker.labels[k] == task.labels[k]
  }

  /** Higher priority first, and the smaller id first among equal priorities. */
  predicate Ahead(a: Task, b: Task) {
    a.priority > b.priority || (a.priority == b.priority && a.id < b.id)
  }

  /** How much of a resource the tasks placed on `w` take. */
  function Used(tasks: seq<Task>, choices: seq<nat>, w: nat, key: string): int
    requires |tasks| == |choices|
  {
    if tasks == [] then 0
    else
      var n := |tasks| - 1;
      Used(tasks[..n], choices[..n], w, key) + if choices[n] == w then Asks(tasks[n], key) else 0
  }

  /** Remaining is what was advertised minus what is used. */
  lemma {:induction false} RemainingIsUnused(tasks: seq<Task>, choices: seq<nat>, resources: Resources, w: nat, key: string)
    requires |tasks| == |choices|
    ensures Get(Remaining(tasks, choices, resources, w), key) == Get(resources, key) - Used(tasks, choices, w, key)
  {
    if tasks != [] {
      var n := |tasks| - 1;
      RemainingIsUnused(tasks[..n], choices[..n], resources, w, key);
    }
  }

  /** Some worker's labels can match both. */
  predicate Compatible(a: Labels, b: Labels) {
    forall k :: k in a && k in b ==> a[k] == b[k]
  }

  /** Placed after `a` on the same worker, `b` gives back something `a` asks for. */
  predicate Relieves(a: Task, b: Task) {
    Compatible(a.labels, b.labels) &&
    exists k :: k in a.requirements && k in b.requirements && b.requirements[k] < 0
  }

  /** No task gives back what an earlier one that could share its worker asks for. */
  predicate NoRelief(tasks: seq<Task>) {
    forall i, j :: 0 <= i < j < |tasks| ==> !Relieves(tasks[i], tasks[j])
  }

  predicate NonNegative(tasks: seq<Task>) {
    forall t :: t in tasks ==> forall k :: k in t.requirements ==> t.requirements[k] >= 0
  }

  lemma NonNegativeNoRelief(tasks: seq<Task>)
    requires NonNegative(tasks)
    ensures NoRelief(tasks)
  {
    forall i, j | 0 <= i < j < |tasks| ensures !Relieves(tasks[i], tasks[j]) {
      assert tasks[j] in tasks;
    }
  }

  /** A choice for every task that respects labels, and on every worker the advertised amount of every
      resource some task placed there asks for. */
  predicate Feasible(tasks: seq<Task>, workers: seq<Worker>, choices: seq<nat>) {
    && |choices| == |tasks|
    && forall i :: 0 <= i < |tasks| ==>
         && choices[i] <= |workers|
         && (choices[i] < |workers| ==>
               && Carries(workers[choices[i]], tasks[i])
               && forall k :: k in tasks[i].requirements ==>
                    Used(tasks, choices, choices[i], k) <= Offers(workers[choices[i]], k))
  }

  /** Lexicographic order; an unassigned task ranks last. */
  predicate LexAtMost(a: seq<nat>, b: seq<nat>)
    requires |a| == |b|
  {
    a == b || exists i :: 0 <= i < |a| && a[..i] == b[..i] && a[i] < b[i]
  }

  lemma {:induction false} ChoicesPrefix(tasks: seq<Task>, workers: seq<Worker>, n: nat)
    requires n <= |tasks|
    ensures Choices(tasks, workers)[..n] == Choices(tasks[..n], workers)
    decreases |tasks|
  {
    if n == |tasks| {
      assert tasks[..n] == tasks;
    } else {
      var m := |tasks| - 1;
      ChoicesPrefix(tasks[..m], workers, n);
      assert tasks[..m][..n] == tasks[..n];
      assert Choices(tasks, workers)[..n] == Choices(tasks[..m], workers)[..n];
    }
  }

  lemma GreedyChoice(tasks: seq<Task>, workers: seq<Worker>, i: nat)
    requires i < |tasks|
    ensures Choices(tasks, workers)[i] ==
      FirstFit(tasks[i], workers, tasks[..i], Choices(tasks, workers)[..i], 0)
  {
    ChoicesPrefix(tasks, workers, i + 1);
    ChoicesPrefix(tasks, workers, i);
    assert tasks[..i + 1][..i] == tasks[..i];
    assert Choices(tasks, workers)[i] == Choices(tasks, workers)[..i + 1][i];
  }

  lemma {:induction false} UsedGrows(tasks: seq<Task>, choices: seq<nat>, w: nat, key: string, n: nat)
    requires |tasks| == |choices| && n <= |tasks|
    requires forall j :: n <= j < |tasks| && choices[j] == w ==> Asks(tasks[j], key) >= 0
    ensures Used(tasks[..n], choices[..n], w, key) <= Used(tasks, choices, w, key)
    decreases |tasks|
  {
    if n == |tasks| {
      assert tasks[..n] == tasks && choices[..n] == choices;
    } else {
      var m := |tasks| - 1;
      UsedGrows(tasks[..m], choices[..m], w, key, n);
      assert tasks[..m][..n] == tasks[..n] && choices[..m][..n] == choices[..n];
    }
  }

  lemma UsedOneMore(tasks: seq<Task>, choices: seq<nat>, w: nat, key: string, i: nat)
    requires |tasks| == |choices| && i < |tasks|
    ensures Used(tasks[..i + 1], choices[..i + 1], w, key) ==
      Used(tasks[..i], choices[..i], w, key) + if choices[i] == w then Asks(tasks[i], key) else 0
  {
    assert tasks[..i + 1][..i] == tasks[..i] && choices[..i + 1][..i] == choices[..i];
  }

  /** The greedy plan is feasible, whatever the sign of the requirements. */
  lemma {:induction false} GreedyWithin(tasks: seq<Task>, workers: seq<Worker>, i: nat, key: string)
    requires i < |tasks| && key in tasks[i].requirements && Choices(tasks, workers)[i] < |workers|
    ensures var c := Choices(tasks, workers);
      Used(tasks, c, c[i], key) <= Offers(workers[c[i]], key)
    decreases |tasks|
  {
    var n := |tasks| - 1;
    var c := Choices(tasks, workers);
    var w := c[i];
    ChoicesPrefix(tasks, workers, n);
    if c[n] == w && key in tasks[n].requirements {
      GreedyChoice(tasks, workers, n);
      RemainingIsUnused(tasks[..n], c[..n], workers[w].resources, w, key);
    } else {
      assert i < n;
      GreedyWithin(tasks[..n], workers, i, key);
    }
  }

  lemma GreedyFeasible(tasks: seq<Task>, workers: seq<Worker>)
    ensures Feasible(tasks, workers, Choices(tasks, workers))
  {
    var c := Choices(tasks, workers);
    forall i | 0 <= i < |tasks|
      ensures c[i] <= |workers|
      ensures c[i] < |workers| ==> Carries(workers[c[i]], tasks[i])
      ensures c[i] < |workers| ==>
        forall k :: k in tasks[i].requirements ==> Used(tasks, c, c[i], k) <= Offers(workers[c[i]], k)
    {
      GreedyChoice(tasks, workers, i);
      if c[i] < |workers| {
        forall k | k in tasks[i].requirements ensures Used(tasks, c, c[i], k) <= Offers(workers[c[i]], k) {
          GreedyWithin(tasks, workers, i, k);
        }
      }
    }
  }

  lemma SharedWorker(a: Task, b: Task, worker: Worker, key: string)
    requires Carries(worker, a) && Carries(worker, b)
    requires !Relieves(a, b) && key in a.requirements
    ensures Asks(b, key) >= 0
  {
    forall k | k in a.labels && k in b.labels ensures a.labels[k] == b.labels[k] {
      assert a.labels[k] == worker.labels[k];
    }
  }

  /** If a feasible assignment agrees with the greedy one before task `i`, greedy could have put task
      `i` where it does. */
  lemma FeasibleAdmits(tasks: seq<Task>, workers: seq<Worker>, other: seq<nat>, i: nat)
    requires NoRelief(tasks) && Feasible(tasks, workers, other) && i < |tasks| && other[i] < |workers|
    ensures Admits(tasks[i], workers[other[i]], Remaining(tasks[..i], other[..i], workers[other[i]].resources, other[i]))
  {
    hide Used, Remaining, Relieves;
    var w := other[i];
    forall k | k in tasks[i].requirements
      ensures Get(Remaining(tasks[..i], other[..i], workers[w].resources, w), k) >= tasks[i].requirements[k]
    {
      RemainingIsUnused(tasks[..i], other[..i], workers[w].resources, w, k);
      UsedOneMore(tasks, other, w, k, i);
      forall j | i + 1 <= j < |tasks| && other[j] == w ensures Asks(tasks[j], k) >= 0 {
        SharedWorker(tasks[i], tasks[j], workers[w], k);
      }
      UsedGrows(tasks, other, w, k, i + 1);
    }
  }

  lemma FirstDifference(a: seq<nat>, b: seq<nat>) returns (i: nat)
    requires |a| == |b| && a != b
    ensures i < |a| && a[..i] == b[..i] && a[i] != b[i]
  {
    var n := |a| - 1;
    if a[..n] == b[..n] {
      assert a == a[..n] + [a[n]] && b == b[..n] + [b[n]];
      i := n;
    } else {
      i := FirstDifference(a[..n], b[..n]);
      assert a[..n][..i] == a[..i] && b[..n][..i] == b[..i];
    }
  }

  /** Among all feasible assignments of the tasks in planning order, the greedy one is the
      lexicographically least. */
  lemma LexLeastPlan(tasks: seq<Task>, workers: seq<Worker>, other: seq<nat>)
    requires NoRelief(tasks) && Feasible(tasks, workers, other)
    ensures Feasible(tasks, workers, Choices(tasks, workers))
    ensures LexAtMost(Choices(tasks, workers), other)
  {
    hide Feasible, Remaining, NoRelief;
    GreedyFeasible(tasks, workers);
    var c := Choices(tasks, workers);
    if c != other {
      FeasibleChoices(tasks, workers, other);
      var i := FirstDifference(c, other);
      GreedyChoice(tasks, workers, i);
      if other[i] < |workers| {
        FeasibleAdmits(tasks, workers, other, i);
      }
    }
  }

  lemma FeasibleChoices(tasks: seq<Task>, workers: seq<Worker>, choices: seq<nat>)
    requires Feasible(tasks, workers, choices)
    ensures |choices| == |tasks| && forall i :: 0 <= i < |tasks| ==> choices[i] <= |workers|
  {}

  // ----- exactly when the plan is the least ------------------------------------------------------------

  /** At most what the tasks together take of a resource, whoever places them. */
  function Bound(tasks: seq<Task>, key: string): int {
    if tasks == [] then 0
    else
      var v := Asks(tasks[|tasks| - 1], key);
      Bound(tasks[..|tasks| - 1], key) + if v > 0 then v else 0
  }

  function Keys(tasks: seq<Task>): set<string> {
    if tasks == [] then {} else Keys(tasks[..|tasks| - 1]) + tasks[|tasks| - 1].requirements.Keys
  }

  lemma {:induction false} KeysOfTask(tasks: seq<Task>, i: nat, key: string)
    requires i < |tasks| && key in tasks[i].requirements
    ensures key in Keys(tasks)
  {
    if i < |tasks| - 1 {
      KeysOfTask(tasks[..|tasks| - 1], i, key);
    }
  }

  lemma {:induction false} UsedBounded(tasks: seq<Task>, choices: seq<nat>, w: nat, key: string)
    requires |tasks| == |choices|
    ensures Used(tasks, choices, w, key) <= Bound(tasks, key)
  {
    if tasks != [] {
      var n := |tasks| - 1;
      UsedBounded(tasks[..n], choices[..n], w, key);
    }
  }

  /** Tasks placed elsewhere, or not asking for the key, use nothing of it. */
  lemma {:induction false} UsedIdle(tasks: seq<Task>, choices: seq<nat>, w: nat, key: string, m: nat, n: nat)
    requires m <= n <= |tasks| == |choices|
    requires forall x :: m <= x < n && choices[x] == w ==> Asks(tasks[x], key) == 0
    ensures Used(tasks[..n], choices[..n], w, key) == Used(tasks[..m], choices[..m], w, key)
    decreases n
  {
    if m < n {
      UsedIdle(tasks, choices, w, key, m, n - 1);
      UsedOneMore(tasks, choices, w, key, n - 1);
    }
  }

  /** A worker that both tasks match, with one less of `key` than `a` asks for and plenty of the rest. */
  function Tight(tasks: seq<Task>, a: Task, b: Task, key: string): Worker
    requires key in a.requirements
  {
    Worker(0, (map k | k in Keys(tasks) :: Bound(tasks, k))[key := a.requirements[key] - 1], a.labels + b.labels, true)
  }

  /** The greedy choices before `i`, then only `i` and `j`. */
  function Detour(c: seq<nat>, i: nat, j: nat): seq<nat> {
    seq(|c|, x requires 0 <= x < |c| => if x < i then c[x] else if x == i || x == j then 0 else 1)
  }

  /** `j` relieves `i` on `key`, and no task before `i` is relieved. */
  predicate FirstRelief(tasks: seq<Task>, i: nat, j: nat, key: string) {
    && i < j < |tasks| && Compatible(tasks[i].labels, tasks[j].labels)
    && key in tasks[i].requirements && key in tasks[j].requirements && tasks[j].requirements[key] < 0
    && forall h, x :: 0 <= h < i && h < x < |tasks| ==> !Relieves(tasks[h], tasks[x])
  }

  /** Tasks placed on the tight worker before `i` do not ask for the key. */
  lemma EarlierIdle(tasks: seq<Task>, i: nat, j: nat, key: string, h: nat)
    requires FirstRelief(tasks, i, j, key) && h < i
    requires Carries(Tight(tasks, tasks[i], tasks[j], key), tasks[h])
    ensures key !in tasks[h].requirements
  {
    forall k | k in tasks[h].labels && k in tasks[j].labels ensures tasks[h].labels[k] == tasks[j].labels[k] {}
    assert !Relieves(tasks[h], tasks[j]);
  }

  lemma GreedyMatches(tasks: seq<Task>, workers: seq<Worker>, h: nat)
    requires h < |tasks| && Choices(tasks, workers)[h] < |workers|
    ensures Carries(workers[Choices(tasks, workers)[h]], tasks[h])
  {
    GreedyChoice(tasks, workers, h);
  }

  lemma GreedyUsesNone(tasks: seq<Task>, i: nat, j: nat, key: string)
    requires FirstRelief(tasks, i, j, key)
    ensures var c := Choices(tasks, [Tight(tasks, tasks[i], tasks[j], key)]);
      && (forall h :: 0 <= h < i && c[h] == 0 ==> Asks(tasks[h], key) == 0)
      && Used(tasks[..i], c[..i], 0, key) == 0
  {
    hide Tight, Relieves, Compatible;
    var workers := [Tight(tasks, tasks[i], tasks[j], key)];
    var c := Choices(tasks, workers);
    forall h | 0 <= h < i && c[h] == 0 ensures Asks(tasks[h], key) == 0 {
      GreedyMatches(tasks, workers, h);
      EarlierIdle(tasks, i, j, key, h);
    }
    UsedIdle(tasks, c, 0, key, 0, i);
    assert tasks[..0] == [] && c[..0] == [];
  }

  lemma GreedySkips(tasks: seq<Task>, i: nat, j: nat, key: string)
    requires FirstRelief(tasks, i, j, key)
    ensures Choices(tasks, [Tight(tasks, tasks[i], tasks[j], key)])[i] == 1
  {
    var worker := Tight(tasks, tasks[i], tasks[j], key);
    var c := Choices(tasks, [worker]);
    GreedyUsesNone(tasks, i, j, key);
    RemainingIsUnused(tasks[..i], c[..i], worker.resources, 0, key);
    GreedyChoice(tasks, [worker], i);
    assert !Fits(tasks[i].requirements, Remaining(tasks[..i], c[..i], worker.resources, 0));
  }

  lemma TightKey(tasks: seq<Task>, a: Task, b: Task, key: string)
    requires key in a.requirements
    ensures Offers(Tight(tasks, a, b, key), key) == a.requirements[key] - 1
  {}

  lemma DetourUses(tasks: seq<Task>, i: nat, j: nat, key: string)
    requires FirstRelief(tasks, i, j, key)
    ensures var worker := Tight(tasks, tasks[i], tasks[j], key);
      Used(tasks, Detour(Choices(tasks, [worker]), i, j), 0, key) <= Offers(worker, key)
  {
    hide Choices, Used, Relieves, Compatible, Tight;
    var c := Choices(tasks, [Tight(tasks, tasks[i], tasks[j], key)]);
    var d := Detour(c, i, j);
    TightKey(tasks, tasks[i], tasks[j], key);
    GreedyUsesNone(tasks, i, j, key);
    assert d[..i] == c[..i];
    UsedOneMore(tasks, d, 0, key, i);
    UsedIdle(tasks, d, 0, key, i + 1, j);
    UsedOneMore(tasks, d, 0, key, j);
    UsedIdle(tasks, d, 0, key, j + 1, |tasks|);
    assert tasks[..|tasks|] == tasks && d[..|tasks|] == d;
  }

  lemma DetourFeasible(tasks: seq<Task>, i: nat, j: nat, key: string)
    requires FirstRelief(tasks, i, j, key)
    ensures var workers := [Tight(tasks, tasks[i], tasks[j], key)];
      Feasible(tasks, workers, Detour(Choices(tasks, workers), i, j))
  {
    hide Choices, Used, Relieves, Bound, Keys;
    var worker := Tight(tasks, tasks[i], tasks[j], key);
    var c := Choices(tasks, [worker]);
    var d := Detour(c, i, j);
    GreedyFeasible(tasks, [worker]);
    DetourUses(tasks, i, j, key);
    forall x | 0 <= x < |tasks|
      ensures d[x] <= 1 && (d[x] < 1 ==> Carries(worker, tasks[x]))
      ensures d[x] < 1 ==> forall k :: k in tasks[x].requirements ==> Used(tasks, d, 0, k) <= Offers(worker, k)
    {
      forall k | k in tasks[x].requirements ensures Used(tasks, d, 0, k) <= Offers(worker, k) {
        if k != key {
          KeysOfTask(tasks, x, k);
          UsedBounded(tasks, d, 0, k);
        }
      }
    }
  }

  lemma DetourLess(c: seq<nat>, i: nat, j: nat)
    requires i < j < |c| && c[i] == 1
    ensures !LexAtMost(c, Detour(c, i, j))
  {
    var d := Detour(c, i, j);
    forall x | i < x <= |c| ensures c[..x] != d[..x] {
      assert c[..x][i] != d[..x][i];
    }
  }

  lemma {:induction false} FindFirstRelief(tasks: seq<Task>, a: nat, b: nat) returns (i: nat, j: nat, key: string)
    requires a < b < |tasks| && Relieves(tasks[a], tasks[b])
    ensures FirstRelief(tasks, i, j, key)
    decreases a
  {
    if h, x :| 0 <= h < a && h < x < |tasks| && Relieves(tasks[h], tasks[x]) {
      i, j, key := FindFirstRelief(tasks, h, x);
    } else {
      i, j := a, b;
      key :| key in tasks[a].requirements && key in tasks[b].requirements && tasks[b].requirements[key] < 0;
    }
  }

  ghost predicate AlwaysLeast(tasks: seq<Task>) {
    forall workers, other :: Feasible(tasks, workers, other) ==> LexAtMost(Choices(tasks, workers), other)
  }

  /** The plan is the least feasible one on all workers exactly when no task gives back what an earlier
      one that could share its worker asks for: greedy cannot wait for it. */
  lemma AlwaysLeastIff(tasks: seq<Task>)
    ensures AlwaysLeast(tasks) <==> NoRelief(tasks)
  {
    hide LexAtMost, Choices, Relieves, FirstRelief, Tight, Detour, Used;
    if NoRelief(tasks) {
      forall workers, other | Feasible(tasks, workers, other) ensures LexAtMost(Choices(tasks, workers), other) {
        LexLeastPlan(tasks, workers, other);
      }
    } else {
      var a, b :| 0 <= a < b < |tasks| && Relieves(tasks[a], tasks[b]);
      var i, j, key := FindFirstRelief(tasks, a, b);
      ReliefLoses(tasks, i, j, key);
    }
  }

  lemma ReliefLoses(tasks: seq<Task>, i: nat, j: nat, key: string)
    requires FirstRelief(tasks, i, j, key)
    ensures !AlwaysLeast(tasks)
  {
    hide Feasible, LexAtMost, Choices, Detour, Relieves;
    var workers := [Tight(tasks, tasks[i], tasks[j], key)];
    var c := Choices(tasks, workers);
    GreedySkips(tasks, i, j, key);
    DetourFeasible(tasks, i, j, key);
    DetourLess(c, i, j);
    assert Feasible(tasks, workers, Detour(c, i, j));
  }

  /** At the end no unplaced task fits what a matching worker has left. */
  lemma WorkConserving(tasks: seq<Task>, workers: seq<Worker>, i: nat, w: nat)
    requires NoRelief(tasks) && i < |tasks| && w < |workers|
    requires Choices(tasks, workers)[i] == |workers|
    ensures !Admits(tasks[i], workers[w], Remaining(tasks, Choices(tasks, workers), workers[w].resources, w))
  {
    hide Used, Choices, Remaining, Relieves, FirstFit;
    var c := Choices(tasks, workers);
    NotAdmitted(tasks, workers, i, w);
    if Carries(workers[w], tasks[i]) {
      var k :| k in tasks[i].requirements &&
        Get(Remaining(tasks[..i], c[..i], workers[w].resources, w), k) < tasks[i].requirements[k];
      RemainingIsUnused(tasks[..i], c[..i], workers[w].resources, w, k);
      RemainingIsUnused(tasks, c, workers[w].resources, w, k);
      forall j | i <= j < |tasks| && c[j] == w ensures Asks(tasks[j], k) >= 0 {
        GreedyMatches(tasks, workers, j);
        SharedWorker(tasks[i], tasks[j], workers[w], k);
      }
      UsedGrows(tasks, c, w, k, i);
    }
  }

  lemma NotAdmitted(tasks: seq<Task>, workers: seq<Worker>, i: nat, w: nat)
    requires i < |tasks| && w < |workers| && Choices(tasks, workers)[i] == |workers|
    ensures !Admits(tasks[i], workers[w], Remaining(tasks[..i], Choices(tasks, workers)[..i], workers[w].resources, w))
  {
    GreedyChoice(tasks, workers, i);
  }

  // ----- order and stability ----------------------------------------------------------------------------

  lemma SoonerTotal()
    ensures TotalPreorder(Sooner)
  {}

  predicate DistinctIds(tasks: seq<Task>) {
    forall i, j :: 0 <= i < j < |tasks| ==> tasks[i].id != tasks[j].id
  }

  /** Every task ahead of the next: by priority, highest first, then by id. */
  predicate InOrder(order: seq<Task>) {
    forall i, j :: 0 <= i < j < |order| ==> Ahead(order[i], order[j])
  }

  lemma SortedInOrder(tasks: seq<Task>)
    requires DistinctIds(tasks)
    ensures var order := Sorted(tasks, Sooner);
      multiset(order) == multiset(tasks) && DistinctIds(order) && InOrder(order)
  {
    SoonerTotal();
    SortsStably(tasks, Sooner);
    PermutedDistinct(tasks, Sorted(tasks, Sooner));
  }

  lemma InOrderSorted(order: seq<Task>)
    requires InOrder(order)
    ensures SortedBy(order, Sooner)
    ensures forall x, y :: x in order && y in order && Sooner(x, y) && Sooner(y, x) ==> x == y
  {
    forall x, y | x in order && y in order && Sooner(x, y) && Sooner(y, x) ensures x == y {
      var i :| 0 <= i < |order| && order[i] == x;
      var j :| 0 <= j < |order| && order[j] == y;
    }
  }

  /** There is one order by priority and id, and it is the planner's. */
  lemma OrderIsSorted(tasks: seq<Task>, order: seq<Task>)
    requires multiset(order) == multiset(tasks) && InOrder(order)
    ensures order == Sorted(tasks, Sooner)
  {
    hide InOrder, SortedBy, Sorted, Ties;
    SoonerTotal();
    SortsStably(tasks, Sooner);
    InOrderSorted(order);
    SortedUnique(order, Sorted(tasks, Sooner), Sooner);
  }

  /** Permuting the task list does not change the plan. */
  lemma PlanIndependent(tasks: seq<Task>, permuted: seq<Task>, workers: seq<Worker>)
    requires DistinctIds(tasks) && multiset(tasks) == multiset(permuted)
    ensures PlanSpec(tasks, workers) == PlanSpec(permuted, workers)
  {
    SortedInOrder(tasks);
    OrderIsSorted(permuted, Sorted(tasks, Sooner));
  }

  lemma {:induction false} PlacedExtends(tasks: seq<Task>, choices: seq<nat>, workers: seq<Worker>, n: nat)
    requires |tasks| == |choices| && n <= |tasks|
    ensures Placed(tasks[..n], choices[..n], workers) <= Placed(tasks, choices, workers)
    decreases |tasks|
  {
    if n == |tasks| {
      assert tasks[..n] == tasks && choices[..n] == choices;
    } else {
      var m := |tasks| - 1;
      PlacedExtends(tasks[..m], choices[..m], workers, n);
      assert tasks[..m][..n] == tasks[..n] && choices[..m][..n] == choices[..n];
    }
  }

  /** Adding tasks that all existing ones are ahead of leaves every existing assignment as it was. */
  lemma PlanStable(tasks: seq<Task>, later: seq<Task>, workers: seq<Worker>)
    requires DistinctIds(tasks) && DistinctIds(later)
    requires forall a, b :: a in tasks && b in later ==> Ahead(a, b)
    ensures PlanSpec(tasks, workers) <= PlanSpec(tasks + later, workers)
  {
    var front, back := Sorted(tasks, Sooner), Sorted(later, Sooner);
    SortedInOrder(tasks);
    SortedInOrder(later);
    SameLength(tasks, front);
    SameLength(later, back);
    forall i, j | 0 <= i < j < |front + back| ensures Ahead((front + back)[i], (front + back)[j]) {
      if i < |front| <= j {
        assert front[i] in front && back[j - |front|] in back;
      }
    }
    OrderIsSorted(tasks + later, front + back);
    var ws := Healthy(workers);
    ChoicesPrefix(front + back, ws, |front|);
    assert (front + back)[..|front|] == front;
    PlacedExtends(front + back, Choices(front + back, ws), ws, |front|);
  }

  /** An assignment in the plan is of a listed task to the worker chosen for it. */
  lemma {:induction false} PlacedFrom(tasks: seq<Task>, choices: seq<nat>, workers: seq<Worker>, a: Assignment) returns (i: nat)
    requires |tasks| == |choices| && a in Placed(tasks, choices, workers)
    ensures i < |tasks| && choices[i] < |workers| && a == Assignment(tasks[i].id, workers[choices[i]].id)
  {
    i := |tasks| - 1;
    if !(choices[i] < |workers| && a == Assignment(tasks[i].id, workers[choices[i]].id)) {
      i := PlacedFrom(tasks[..i], choices[..i], workers, a);
    }
  }

  /** Every task with a worker chosen for it is in the plan. */
  lemma {:induction false} PlacedHas(tasks: seq<Task>, choices: seq<nat>, workers: seq<Worker>, i: nat)
    requires |tasks| == |choices| && i < |tasks| && choices[i] < |workers|
    ensures Assignment(tasks[i].id, workers[choices[i]].id) in Placed(tasks, choices, workers)
  {
    var n := |tasks| - 1;
    if i < n {
      PlacedHas(tasks[..n], choices[..n], workers, i);
    }
  }

  predicate OncePlaced(placed: seq<Assignment>) {
    forall i, j :: 0 <= i < j < |placed| ==> placed[i].taskId != placed[j].taskId
  }

  lemma OncePlacedMore(placed: seq<Assignment>, a: Assignment)
    requires OncePlaced(placed) && forall b :: b in placed ==> b.taskId != a.taskId
    ensures OncePlaced(placed + [a])
  {
    assert forall i :: 0 <= i < |placed| ==> placed[i] in placed;
  }

  /** No task is placed twice. */
  lemma {:induction false} PlacedOnce(tasks: seq<Task>, choices: seq<nat>, workers: seq<Worker>)
    requires |tasks| == |choices| && DistinctIds(tasks)
    ensures OncePlaced(Placed(tasks, choices, workers))
  {
    hide OncePlaced;
    if tasks != [] {
      var n := |tasks| - 1;
      var before := Placed(tasks[..n], choices[..n], workers);
      PlacedOnce(tasks[..n], choices[..n], workers);
      if choices[n] < |workers| {
        forall b | b in before ensures b.taskId != tasks[n].id {
          var k := PlacedFrom(tasks[..n], choices[..n], workers, b);
        }
        OncePlacedMore(before, Assignment(tasks[n].id, workers[choices[n]].id));
      }
    } else {
      NothingPlacedOnce();
    }
  }

  lemma NothingPlacedOnce()
    ensures OncePlaced([])
  {}

  lemma PermutedDistinct(tasks: seq<Task>, permuted: seq<Task>)
    requires DistinctIds(tasks) && multiset(tasks) == multiset(permuted)
    ensures DistinctIds(permuted)
  {
    SameLength(tasks, permuted);
    PermutedApart(tasks, permuted);
    forall i, j | 0 <= i < j < |permuted| ensures permuted[i].id != permuted[j].id {
      assert permuted[i] in tasks && permuted[j] in tasks;
    }
  }

  // ----- the workers the planner looks at ----------------------------------------------------------------

  ghost function Healthies(workers: seq<Worker>): nat -> bool {
    (x: nat) => x < |workers| && workers[x].healthy
  }

  /** The positions of the healthy workers, in the order they were given. */
  ghost predicate HealthyAt(workers: seq<Worker>, at: seq<nat>) {
    Picks(at, |workers|, Healthies(workers))
  }

  function Those(workers: seq<Worker>, at: seq<nat>): seq<Worker>
    requires forall i :: 0 <= i < |at| ==> at[i] < |workers|
  {
    seq(|at|, i requires 0 <= i < |at| => workers[at[i]])
  }

  lemma {:induction false} HealthyUpTo(workers: seq<Worker>, n: nat) returns (at: seq<nat>)
    requires n <= |workers|
    ensures Picks(at, n, Healthies(workers)) && Healthy(workers[..n]) == Those(workers, at)
  {
    at := [];
    if n == 0 {
      PicksNone(Healthies(workers));
    } else {
      at := HealthyUpTo(workers, n - 1);
      HealthyMore(workers, n - 1, at);
      at := if workers[n - 1].healthy then at + [n - 1] else at;
    }
  }

  lemma HealthyMore(workers: seq<Worker>, n: nat, at: seq<nat>)
    requires n < |workers| && Picks(at, n, Healthies(workers)) && (forall i :: 0 <= i < |at| ==> at[i] < n)
    requires Healthy(workers[..n]) == Those(workers, at)
    ensures var more := if workers[n].healthy then at + [n] else at;
      && Picks(more, n + 1, Healthies(workers)) && (forall i :: 0 <= i < |more| ==> more[i] < n + 1)
      && Healthy(workers[..n + 1]) == Those(workers, more)
  {
    hide Picks, Those, Healthy;
    PicksMore(at, n, Healthies(workers));
    HealthyNext(workers, n);
    ThoseMore(workers, at, n);
  }

  lemma HealthyNext(workers: seq<Worker>, n: nat)
    requires n < |workers|
    ensures Healthy(workers[..n + 1]) == if workers[n].healthy then Healthy(workers[..n]) + [workers[n]] else Healthy(workers[..n])
  {
    assert workers[..n + 1][..n] == workers[..n];
  }

  lemma ThoseMore(workers: seq<Worker>, at: seq<nat>, n: nat)
    requires n < |workers| && forall i :: 0 <= i < |at| ==> at[i] < |workers|
    ensures Those(workers, at + [n]) == Those(workers, at) + [workers[n]]
  {}

  lemma HealthyHas(workers: seq<Worker>) returns (at: seq<nat>)
    ensures HealthyAt(workers, at) && Healthy(workers) == Those(workers, at)
  {
    at := HealthyUpTo(workers, |workers|);
    assert workers[..|workers|] == workers;
  }

  lemma HealthyThose(workers: seq<Worker>, at: seq<nat>)
    requires HealthyAt(workers, at)
    ensures Healthy(workers) == Those(workers, at)
  {
    var found := HealthyHas(workers);
    PicksOne(at, found, |workers|, Healthies(workers));
  }

  lemma HealthyDistinct(workers: seq<Worker>, at: seq<nat>)
    requires DistinctWorkers(workers) && HealthyAt(workers, at)
    ensures DistinctWorkers(Those(workers, at))
  {}

  // ----- the plan, told from the tasks and the workers ---------------------------------------------------

  function Total(tasks: seq<Task>, amount: Task -> int): int {
    if tasks == [] then 0 else Total(tasks[..|tasks| - 1], amount) + amount(tasks[|tasks| - 1])
  }

  lemma {:induction false} TotalWithout(tasks: seq<Task>, amount: Task -> int, i: nat)
    requires i < |tasks|
    ensures Total(tasks, amount) == Total(tasks[..i] + tasks[i + 1..], amount) + amount(tasks[i])
  {
    var n := |tasks| - 1;
    if i == n {
      assert tasks[..i] + tasks[i + 1..] == tasks[..n];
    } else {
      TotalWithout(tasks[..n], amount, i);
      var rest := tasks[..i] + tasks[i + 1..];
      assert rest[..|rest| - 1] == tasks[..n][..i] + tasks[..n][i + 1..];
    }
  }

  lemma Without(tasks: seq<Task>, i: nat)
    requires i < |tasks|
    ensures multiset(tasks[..i] + tasks[i + 1..]) == multiset(tasks) - multiset{tasks[i]}
  {
    assert tasks == tasks[..i] + [tasks[i]] + tasks[i + 1..];
  }

  lemma {:induction false} TotalPermuted(a: seq<Task>, b: seq<Task>, amount: Task -> int)
    requires multiset(a) == multiset(b)
    ensures Total(a, amount) == Total(b, amount)
  {
    SameLength(a, b);
    if a != [] {
      var n := |a| - 1;
      assert a[n] in b;
      var i :| 0 <= i < |b| && b[i] == a[n];
      var rest := b[..i] + b[i + 1..];
      Without(a, n);
      assert a[..n] + a[n + 1..] == a[..n];
      Without(b, i);
      TotalPermuted(a[..n], rest, amount);
      TotalWithout(b, amount, i);
    }
  }

  lemma {:induction false} TotalAtMost(tasks: seq<Task>, f: Task -> int, g: Task -> int)
    requires forall t :: t in tasks ==> f(t) <= g(t)
    ensures Total(tasks, f) <= Total(tasks, g)
  {
    if tasks != [] {
      TotalAtMost(tasks[..|tasks| - 1], f, g);
    }
  }

  /** What a task takes of a worker's resource under a plan. */
  function Share(plan: seq<Assignment>, workerId: nat, key: string): Task -> int {
    (t: Task) => if Assignment(t.id, workerId) in plan then Asks(t, key) else 0
  }

  function ShareAhead(plan: seq<Assignment>, workerId: nat, key: string, task: Task): Task -> int {
    (t: Task) => if Ahead(t, task) && Assignment(t.id, workerId) in plan then Asks(t, key) else 0
  }

  /** What the tasks placed on a worker take of a resource together. */
  function Taken(tasks: seq<Task>, plan: seq<Assignment>, workerId: nat, key: string): int {
    Total(tasks, Share(plan, workerId, key))
  }

  /** What those of them ahead of `task` take. */
  function TakenAhead(tasks: seq<Task>, plan: seq<Assignment>, workerId: nat, key: string, task: Task): int {
    Total(tasks, ShareAhead(plan, workerId, key, task))
  }

  /** The worker is healthy, has the labels, and has enough of every resource left by the tasks ahead. */
  predicate HasRoom(tasks: seq<Task>, plan: seq<Assignment>, task: Task, worker: Worker) {
    && worker.healthy && Carries(worker, task)
    && forall key :: key in task.requirements ==>
         TakenAhead(tasks, plan, worker.id, key, task) + task.requirements[key] <= Offers(worker, key)
  }

  /** The plan names the worker chosen for each task. */
  lemma PlacedTells(tasks: seq<Task>, choices: seq<nat>, workers: seq<Worker>, i: nat, w: nat)
    requires |tasks| == |choices| && DistinctIds(tasks) && DistinctWorkers(workers) && i < |tasks| && w < |workers|
    ensures choices[i] == w <==> Assignment(tasks[i].id, workers[w].id) in Placed(tasks, choices, workers)
  {
    var a := Assignment(tasks[i].id, workers[w].id);
    if choices[i] == w {
      PlacedHas(tasks, choices, workers, i);
    } else if a in Placed(tasks, choices, workers) {
      var k := PlacedFrom(tasks, choices, workers, a);
    }
  }

  lemma {:induction false} TakenIsUsed(tasks: seq<Task>, choices: seq<nat>, workers: seq<Worker>, plan: seq<Assignment>, w: nat, key: string)
    requires |tasks| == |choices| && w < |workers|
    requires forall i :: 0 <= i < |tasks| ==> (choices[i] == w <==> Assignment(tasks[i].id, workers[w].id) in plan)
    ensures Total(tasks, Share(plan, workers[w].id, key)) == Used(tasks, choices, w, key)
  {
    if tasks != [] {
      TakenIsUsed(tasks[..|tasks| - 1], choices[..|tasks| - 1], workers, plan, w, key);
    }
  }

  lemma {:induction false} AheadIsUsed(tasks: seq<Task>, choices: seq<nat>, workers: seq<Worker>, plan: seq<Assignment>, w: nat, key: string, i: nat, n: nat)
    requires InOrder(tasks) && i <= n <= |tasks| == |choices| && i < |tasks| && w < |workers|
    requires forall x :: 0 <= x < |tasks| ==> (choices[x] == w <==> Assignment(tasks[x].id, workers[w].id) in plan)
    ensures Total(tasks[..n], ShareAhead(plan, workers[w].id, key, tasks[i])) == Used(tasks[..i], choices[..i], w, key)
    decreases n
  {
    var f := ShareAhead(plan, workers[w].id, key, tasks[i]);
    if i < n {
      AheadIsUsed(tasks, choices, workers, plan, w, key, i, n - 1);
      assert tasks[..n][..n - 1] == tasks[..n - 1];
      assert !Ahead(tasks[n - 1], tasks[i]);
    } else {
      AllAhead(tasks, choices, workers, plan, w, key, i, i);
    }
  }

  lemma {:induction false} AllAhead(tasks: seq<Task>, choices: seq<nat>, workers: seq<Worker>, plan: seq<Assignment>, w: nat, key: string, i: nat, n: nat)
    requires InOrder(tasks) && n <= i < |tasks| == |choices| && w < |workers|
    requires forall x :: 0 <= x < |tasks| ==> (choices[x] == w <==> Assignment(tasks[x].id, workers[w].id) in plan)
    ensures Total(tasks[..n], ShareAhead(plan, workers[w].id, key, tasks[i])) == Used(tasks[..n], choices[..n], w, key)
    decreases n
  {
    if n > 0 {
      AllAhead(tasks, choices, workers, plan, w, key, i, n - 1);
      assert tasks[..n][..n - 1] == tasks[..n - 1] && choices[..n][..n - 1] == choices[..n - 1];
      assert Ahead(tasks[n - 1], tasks[i]);
    }
  }

  /** What greedy has left for a task is what the tasks ahead of it leave. */
  lemma AdmitsIsRoom(tasks: seq<Task>, order: seq<Task>, ws: seq<Worker>, i: nat, w: nat)
    requires multiset(order) == multiset(tasks) && InOrder(order) && DistinctIds(order) && DistinctWorkers(ws)
    requires i < |order| && w < |ws| && ws[w].healthy
    ensures var c := Choices(order, ws);
      Admits(order[i], ws[w], Remaining(order[..i], c[..i], ws[w].resources, w)) <==>
      HasRoom(tasks, Placed(order, c, ws), order[i], ws[w])
  {
    hide Choices, Placed, Remaining, Used, Total, Ahead, InOrder, DistinctIds, DistinctWorkers;
    var c := Choices(order, ws);
    var plan := Placed(order, c, ws);
    var task, worker := order[i], ws[w];
    forall x | 0 <= x < |order| ensures c[x] == w <==> Assignment(order[x].id, worker.id) in plan {
      PlacedTells(order, c, ws, x, w);
    }
    forall key ensures TakenAhead(tasks, plan, worker.id, key, task) == Used(order[..i], c[..i], w, key) {
      TotalPermuted(tasks, order, ShareAhead(plan, worker.id, key, task));
      AheadIsUsed(order, c, ws, plan, w, key, i, |order|);
      assert order[..|order|] == order;
    }
    forall key ensures Get(Remaining(order[..i], c[..i], worker.resources, w), key) ==
                       Offers(worker, key) - TakenAhead(tasks, plan, worker.id, key, task) {
      RemainingIsUnused(order[..i], c[..i], worker.resources, w, key);
    }
  }

  /** A task is placed exactly on the first worker, in the order they were given, that is healthy, has
      its labels, and has enough left by the placed tasks of higher priority, or of equal priority and
      smaller id. A task with no such worker is left out. */
  lemma PlanFirstFit(tasks: seq<Task>, workers: seq<Worker>, task: Task, x: nat)
    requires DistinctIds(tasks) && DistinctWorkers(workers) && task in tasks && x < |workers|
    ensures var plan := PlanSpec(tasks, workers);
      Assignment(task.id, workers[x].id) in plan <==>
      HasRoom(tasks, plan, task, workers[x]) && forall y :: 0 <= y < x ==> !HasRoom(tasks, plan, task, workers[y])
  {
    hide Choices, Placed, Remaining, Sorted, DistinctIds, HasRoom, InOrder, FirstFit, Healthy, Admits;
    var order := Sorted(tasks, Sooner);
    var at := HealthyHas(workers);
    var ws := Those(workers, at);
    var c := Choices(order, ws);
    var plan := Placed(order, c, ws);
    SortedInOrder(tasks);
    SameLength(order, tasks);
    HealthyDistinct(workers, at);
    var i :| 0 <= i < |order| && order[i] == task;
    GreedyChoice(order, ws, i);
    forall w | 0 <= w < |ws|
      ensures Admits(task, ws[w], Remaining(order[..i], c[..i], ws[w].resources, w)) <==> HasRoom(tasks, plan, task, ws[w])
    {
      AdmitsIsRoom(tasks, order, ws, i, w);
    }
    UnhealthyNoRoom(tasks, plan, task, workers);
    if workers[x].healthy {
      assert Healthies(workers)(x);
      var w :| 0 <= w < |at| && at[w] == x;
      PlacedTells(order, c, ws, i, w);
      FirstOfThose(tasks, plan, task, workers, at, w);
      FirstFitIff(task, ws, order[..i], c[..i], w);
    } else if Assignment(task.id, workers[x].id) in plan {
      var k := PlacedFrom(order, c, ws, Assignment(task.id, workers[x].id));
    }
  }

  lemma UnhealthyNoRoom(tasks: seq<Task>, plan: seq<Assignment>, task: Task, workers: seq<Worker>)
    ensures forall y :: 0 <= y < |workers| && !workers[y].healthy ==> !HasRoom(tasks, plan, task, workers[y])
  {}

  lemma FirstFitIff(task: Task, workers: seq<Worker>, tasks: seq<Task>, choices: seq<nat>, w: nat)
    requires |tasks| == |choices| && w < |workers|
    ensures FirstFit(task, workers, tasks, choices, 0) == w <==>
      (&& Admits(task, workers[w], Remaining(tasks, choices, workers[w].resources, w))
       && forall v :: 0 <= v < w ==> !Admits(task, workers[v], Remaining(tasks, choices, workers[v].resources, v)))
  {
    hide Admits, Remaining, FirstFit;
    var first := FirstFit(task, workers, tasks, choices, 0);
  }

  /** Before a healthy worker, room on a healthy one and room on any are the same. */
  lemma FirstOfThose(tasks: seq<Task>, plan: seq<Assignment>, task: Task, workers: seq<Worker>, at: seq<nat>, w: nat)
    requires HealthyAt(workers, at) && w < |at|
    ensures (forall v :: 0 <= v < w ==> !HasRoom(tasks, plan, task, Those(workers, at)[v])) <==>
            (forall y :: 0 <= y < at[w] ==> !HasRoom(tasks, plan, task, workers[y]))
  {
    UnhealthyNoRoom(tasks, plan, task, workers);
    hide HasRoom;
    if forall v :: 0 <= v < w ==> !HasRoom(tasks, plan, task, Those(workers, at)[v]) {
      forall y | 0 <= y < at[w] ensures !HasRoom(tasks, plan, task, workers[y]) {
        if workers[y].healthy {
          assert Healthies(workers)(y);
          var v :| 0 <= v < |at| && at[v] == y;
          assert Those(workers, at)[v] == workers[y];
        }
      }
    } else {
      var v :| 0 <= v < w && HasRoom(tasks, plan, task, Those(workers, at)[v]);
      assert at[v] < at[w] && HasRoom(tasks, plan, task, workers[at[v]]);
    }
  }

  /** Nothing in the plan but listed tasks on healthy listed workers with their labels, each task once;
      and on a worker no more of what a task placed there asks for is taken than is advertised. */
  lemma PlanSafe(tasks: seq<Task>, workers: seq<Worker>)
    requires DistinctIds(tasks)
    ensures OncePlaced(PlanSpec(tasks, workers))
    ensures forall a :: a in PlanSpec(tasks, workers) ==> Sound(tasks, workers, a)
    ensures DistinctWorkers(workers) ==>
      forall t, w, key :: t in tasks && w in workers && Assignment(t.id, w.id) in PlanSpec(tasks, workers) && key in t.requirements ==>
        Taken(tasks, PlanSpec(tasks, workers), w.id, key) <= Offers(w, key)
  {
    hide Feasible, Choices, Placed, Sorted, DistinctIds, OncePlaced, Sound, Taken, Healthy, InOrder, Those;
    var order := Sorted(tasks, Sooner);
    var at := HealthyHas(workers);
    var c := Choices(order, Those(workers, at));
    SortedInOrder(tasks);
    PlacedOnce(order, c, Those(workers, at));
    forall a | a in PlanSpec(tasks, workers) ensures Sound(tasks, workers, a) {
      PlanSound(tasks, workers, order, at, a);
    }
    if DistinctWorkers(workers) {
      forall t, w, key | t in tasks && w in workers && Assignment(t.id, w.id) in PlanSpec(tasks, workers) && key in t.requirements
        ensures Taken(tasks, PlanSpec(tasks, workers), w.id, key) <= Offers(w, key)
      {
        PlanWithin(tasks, workers, order, at, t, w, key);
      }
    }
  }

  ghost predicate Sound(tasks: seq<Task>, workers: seq<Worker>, a: Assignment) {
    exists t, w :: t in tasks && w in workers && a == Assignment(t.id, w.id) && w.healthy && Carries(w, t)
  }

  lemma PlanSound(tasks: seq<Task>, workers: seq<Worker>, order: seq<Task>, at: seq<nat>, a: Assignment)
    requires multiset(order) == multiset(tasks) && HealthyAt(workers, at)
    requires a in Placed(order, Choices(order, Those(workers, at)), Those(workers, at))
    ensures Sound(tasks, workers, a)
  {
    hide Choices, Placed, Carries;
    var ws := Those(workers, at);
    var c := Choices(order, ws);
    SameLength(order, tasks);
    var i := PlacedFrom(order, c, ws, a);
    GreedyMatches(order, ws, i);
    assert order[i] in order && workers[at[c[i]]] in workers;
  }

  lemma PlanWithin(tasks: seq<Task>, workers: seq<Worker>, order: seq<Task>, at: seq<nat>, t: Task, w: Worker, key: string)
    requires multiset(order) == multiset(tasks) && DistinctIds(order) && DistinctWorkers(workers) && HealthyAt(workers, at)
    requires t in tasks && w in workers && key in t.requirements
    requires Assignment(t.id, w.id) in Placed(order, Choices(order, Those(workers, at)), Those(workers, at))
    ensures Taken(tasks, Placed(order, Choices(order, Those(workers, at)), Those(workers, at)), w.id, key) <= Offers(w, key)
  {
    hide Choices, Placed, Used, Total;
    var ws := Those(workers, at);
    var c := Choices(order, ws);
    var plan := Placed(order, c, ws);
    SameLength(order, tasks);
    HealthyDistinct(workers, at);
    var k := PlacedFrom(order, c, ws, Assignment(t.id, w.id));
    var i :| 0 <= i < |order| && order[i] == t;
    assert i == k && workers[at[c[k]]].id == w.id;
    var x :| 0 <= x < |workers| && workers[x] == w;
    assert x == at[c[k]] && ws[c[k]] == w;
    forall y | 0 <= y < |order| ensures c[y] == c[k] <==> Assignment(order[y].id, w.id) in plan {
      PlacedTells(order, c, ws, y, c[k]);
    }
    GreedyWithin(order, ws, k, key);
    TakenIsUsed(order, c, ws, plan, c[k], key);
    TotalPermuted(tasks, order, Share(plan, w.id, key));
  }

  /** No task gives back what one ahead of it that could share its worker asks for. */
  predicate Unrelieved(tasks: seq<Task>) {
    forall a, b :: a in tasks && b in tasks && Ahead(a, b) ==> !Relieves(a, b)
  }

  /** At the end no task left out fits what the plan leaves of any healthy worker with its labels. */
  lemma PlanConserves(tasks: seq<Task>, workers: seq<Worker>, task: Task, worker: Worker)
    requires DistinctIds(tasks) && DistinctWorkers(workers) && Unrelieved(tasks)
    requires task in tasks && worker in workers && worker.healthy && Carries(worker, task)
    requires forall a :: a in PlanSpec(tasks, workers) ==> a.taskId != task.id
    ensures var plan := PlanSpec(tasks, workers);
      exists key :: key in task.requirements && Taken(tasks, plan, worker.id, key) + task.requirements[key] > Offers(worker, key)
  {
    hide PlanSpec, Total, Relieves, Ahead;
    var plan := PlanSpec(tasks, workers);
    NoRoomAtAll(tasks, workers, task, worker);
    var key :| key in task.requirements &&
      TakenAhead(tasks, plan, worker.id, key, task) + task.requirements[key] > Offers(worker, key);
    forall t | t in tasks && Assignment(t.id, worker.id) in plan && !Ahead(t, task) ensures Asks(t, key) >= 0 {
      PlacedCarries(tasks, workers, t, worker);
      SameOrBehind(tasks, task, t);
      SharedWorker(task, t, worker, key);
    }
    TotalAtMost(tasks, ShareAhead(plan, worker.id, key, task), Share(plan, worker.id, key));
  }

  lemma SameOrBehind(tasks: seq<Task>, task: Task, t: Task)
    requires DistinctIds(tasks) && task in tasks && t in tasks && t.id != task.id && !Ahead(t, task)
    ensures Ahead(task, t)
  {}

  lemma PlacedCarries(tasks: seq<Task>, workers: seq<Worker>, t: Task, worker: Worker)
    requires DistinctIds(tasks) && DistinctWorkers(workers) && t in tasks && worker in workers
    requires Assignment(t.id, worker.id) in PlanSpec(tasks, workers)
    ensures Carries(worker, t)
  {
    hide PlanSpec, DistinctIds, DistinctWorkers, TakenAhead;
    var x :| 0 <= x < |workers| && workers[x] == worker;
    PlanFirstFit(tasks, workers, t, x);
  }

  lemma NoRoomAtAll(tasks: seq<Task>, workers: seq<Worker>, task: Task, worker: Worker)
    requires DistinctIds(tasks) && DistinctWorkers(workers)
    requires task in tasks && worker in workers
    requires forall a :: a in PlanSpec(tasks, workers) ==> a.taskId != task.id
    ensures !HasRoom(tasks, PlanSpec(tasks, workers), task, worker)
  {
    hide PlanSpec, HasRoom, DistinctIds, DistinctWorkers;
    var plan := PlanSpec(tasks, workers);
    var x :| 0 <= x < |workers| && workers[x] == worker;
    NoRoomBefore(tasks, workers, task, x + 1);
  }

  lemma {:induction false} NoRoomBefore(tasks: seq<Task>, workers: seq<Worker>, task: Task, n: nat)
    requires DistinctIds(tasks) && DistinctWorkers(workers) && task in tasks && n <= |workers|
    requires forall a :: a in PlanSpec(tasks, workers) ==> a.taskId != task.id
    ensures forall y :: 0 <= y < n ==> !HasRoom(tasks, PlanSpec(tasks, workers), task, workers[y])
  {
    hide PlanSpec, HasRoom, DistinctIds, DistinctWorkers;
    if n > 0 {
      NoRoomBefore(tasks, workers, task, n - 1);
      PlanFirstFit(tasks, workers, task, n - 1);
    }
  }

  /** The assignments come in the order of their tasks. */
  lemma PlanInOrder(tasks: seq<Task>, workers: seq<Worker>, a: Task, b: Task, i: nat, j: nat)
    requires DistinctIds(tasks) && a in tasks && b in tasks && i < j < |PlanSpec(tasks, workers)|
    requires PlanSpec(tasks, workers)[i].taskId == a.id && PlanSpec(tasks, workers)[j].taskId == b.id
    ensures Ahead(a, b)
  {
    hide Choices, Placed, Sorted, Healthy, Ahead;
    var order, ws := Sorted(tasks, Sooner), Healthy(workers);
    SortedInOrder(tasks);
    SameLength(tasks, order);
    var k, l := PlacedAscends(order, Choices(order, ws), ws, i, j);
    assert order[k] in tasks && order[l] in tasks;
    assert order[k] == a && order[l] == b;
  }

  lemma {:induction false} PlacedAscends(tasks: seq<Task>, choices: seq<nat>, workers: seq<Worker>, i: nat, j: nat)
    returns (k: nat, l: nat)
    requires |tasks| == |choices| && i < j < |Placed(tasks, choices, workers)|
    ensures k < l < |tasks|
    ensures var placed := Placed(tasks, choices, workers);
      placed[i].taskId == tasks[k].id && placed[j].taskId == tasks[l].id
  {
    var n := |tasks| - 1;
    var before := Placed(tasks[..n], choices[..n], workers);
    if j < |before| {
      k, l := PlacedAscends(tasks[..n], choices[..n], workers, i, j);
    } else {
      k := PlacedFrom(tasks[..n], choices[..n], workers, before[i]);
      l := n;
    }
  }

  /** The least of all feasible choices of workers for the tasks. */
  ghost predicate IsLeast(tasks: seq<Task>, workers: seq<Worker>, least: seq<nat>) {
    Feasible(tasks, workers, least) &&
    forall other: seq<nat> :: Feasible(tasks, workers, other) ==> LexAtMost(least, other)
  }

  /** The assignments of the least feasible choice. */
  ghost predicate IsLeastPlan(tasks: seq<Task>, workers: seq<Worker>, plan: seq<Assignment>) {
    exists least :: IsLeast(tasks, workers, least) && plan == Placed(tasks, least, workers)
  }

  /** Take the tasks by priority, highest first, and then by id, and the healthy workers in the order
      they were given: the plan places them as the least feasible choice does. */
  lemma PlanLeast(tasks: seq<Task>, workers: seq<Worker>, order: seq<Task>, at: seq<nat>)
    requires multiset(order) == multiset(tasks) && InOrder(order) && NoRelief(order) && HealthyAt(workers, at)
    ensures IsLeastPlan(order, Those(workers, at), PlanSpec(tasks, workers))
  {
    OrderIsSorted(tasks, order);
    HealthyThose(workers, at);
    LeastPlaced(order, Those(workers, at));
  }

  lemma LeastPlaced(tasks: seq<Task>, workers: seq<Worker>)
    requires NoRelief(tasks)
    ensures IsLeastPlan(tasks, workers, Placed(tasks, Choices(tasks, workers), workers))
  {
    ChoicesLeast(tasks, workers);
  }

  lemma ChoicesLeast(tasks: seq<Task>, workers: seq<Worker>)
    requires NoRelief(tasks)
    ensures IsLeast(tasks, workers, Choices(tasks, workers))
  {
    GreedyFeasible(tasks, workers);
    forall other: seq<nat> | Feasible(tasks, workers, other) ensures LexAtMost(Choices(tasks, workers), other) {
      LexLeastPlan(tasks, workers, other);
    }
  }
}
