# Verified model of IterLab

IterLab runs lab workflows: a run is a grid of iterations and steps that a runner executes,
can lose half way, and picks up again. This project models the parts of IterLab whose
correctness spans many calls and proves what they promise.

`dafny verify dfyconfig.toml` checks everything.

## What is modelled

**Runs** (`RunModel`, `RunExecutor`, `RunReference`, `RunProtocol`, `RunTheorems`, `RunRecords`,
`RunMoves`, `RunDispatch`, `RunOrder`, `RunLifecycle`).
`RunSession.ExecuteRun` is the executor with its mutable state: the sets of done and retried cells,
the prior outputs, the history, the outputs of the current iteration. It is proved to commit and to
call handlers in exactly the order `TraceRead` lists, which looks at nothing but the committed rows and
the order the query without ORDER BY returns them in. A crash is a prefix of that list. The theorems on
histories are about rows read back as they were written (`Trace`); `RunOrder` carries them over to every
order for workflows whose steps have distinct handler keys, and `ReplayStableIffDistinct` says that
without distinct keys the order matters. Handlers are an oracle: at each attempt the environment
chooses which checkpoints are saved and whether the handler succeeds, raises (resumably or not) or
takes the process down; what a success returns depends on the step, the iteration, the outputs and
the history. Histories interleave claims, dispatches cut off at any event, retries and resumes.
`Reference` is the comparison: the cells of the grid one after the other, with no commits, budget or
interruption. `RunRecords` and `RunDispatch` say what is on record, and what every event of every
dispatch from every reachable state is, from the rows, the handlers' results and the attempts alone,
key by key, without the functions that compute it. `RunLifecycle` puts many runs, runners and API callers together.

**Grading** (`Grades`, `GradeLaws`, `GradeFacts`). One pass with its two running maxima and its
accumulators, refined to definitions that look at one agent or prompt and all earlier runs,
conservation laws over those, and what each accumulator and grade holds, told from the runs.

**Scheduling** (`Scheduler`). The greedy planner and its optimality, safety and stability; `PlanFirstFit`
is an exact description of the plan from priorities, ids, labels and amounts.

**Sessions** (`AuthServer`, `AuthClient`, `AuthRetry`). Refresh-token rotation with reuse detection, in the sense
of section 4.14.2 of RFC 9700, over every history of calls; and one browser tab's single-flight
refresh composed with it, the network and every other client, under any interleaving. `Orderly`
states what the composition needs; for each of its clauses there is a short history that breaks it
and trips reuse detection. `AuthRetry` says, from the log of what the tab sent and heard, when a call
is repeated and with which token.

**Prompts** (`Prompts`, `PromptLaws`, `PromptFiles`). Write-once registration of prompt version files, drift, and
the movable bindings, over every history of file edits and syncs.

**Packed queue** (`Binary64`, `PackedQueue`). Priority and arrival number packed into one binary64 score
(section 3.3 of IEEE 754-2008, rounding ties to even), against a list in arrival order: when the two
agree, and exactly when rounding or 10^12 pushes make them differ.

**Label ranking** (`LabelRanking`, `LabelFacts`). The sort keys of the three strategies as orders on
strings, what decides them, and the ranked table.

`Options`, `Sorting`, `Picking` and `Strings` hold the optional value, Python's stable sort, lists of
positions and Python's string order. Money is counted in micro-USD, since spend is rounded to 6 decimals, and a resume rounds to
multiples of 100 of them; times are tenths of a second; scores are reals.

## Where code and documentation differ

The model follows the code. `README.md:176` says a budget of 0 disables the cap; the executor falls
back to the default (`ZeroBudgetIsDefault`). `backend/iterlab/runs/grades.py:109` describes a best
over all candidates; candidates without a prompt are skipped (`CountedRightIff` says exactly when that
matters). A task with a negative requirement can make the plan miss the least feasible one
(`AlwaysLeastIff`). Packed scores round for large priorities and overflow after 10^12 pushes
(`PriorityRightIff`, `HeadAlwaysFrontIff`).
`backend/iterlab/api/routes/experiments.py:218` rounds, so a resume can lower a cap that is off the
4-decimal grid (`ResumeLowersCap` says exactly when). A runner that dies after its claim leaves the run
`scheduled`, and after its first commit `running`; neither the claim nor retry nor resume moves such a
run (`StuckAfterCrash`, `StuckIff`). Calling the executor on it directly continues it, which the
histories here include.

## Model

| member | source | states |
|---|---|---|
| RunExecutor.RunSession.constructor | backend/iterlab/runs/executor.py:160-176 | a session loads the run as committed, with iterations resolved and the agent override applied |
| RunExecutor.RunSession.ReadRows | backend/iterlab/runs/executor.py:249-253 | the query without ORDER BY returns the committed rows in no promised order |
| RunExecutor.RunSession.RunSpend | backend/iterlab/runs/executor.py:66-73 | only succeeded rows count as spend |
| RunExecutor.RunSession.CandidateFor | backend/iterlab/runs/executor.py:96-106 | finds the iteration's candidate or adds one, and changes no other |
| RunExecutor.RunSession.RecordBenchmarks | backend/iterlab/runs/executor.py:132-157 | appends the outcomes on known benchmarks in order and drops the others |
| RunExecutor.RunSession.FindRegistered | backend/iterlab/runs/executor.py:109-129 | a prompt resolves by slug and version, else by slug and text, else the lookup fails |
| RunExecutor.RunSession.Checkpoint | backend/iterlab/runs/executor.py:306-311 | a checkpoint merges into the open row's output and commits |
| RunExecutor.RunSession.TakeCheckpoints | backend/iterlab/runs/executor.py:306-311 | any number of checkpoints commits each intermediate output in turn |
| RunExecutor.RunSession.Pause | backend/iterlab/runs/executor.py:178-193 | a pause records its kind, the resolved budget and timeout and the spend, in one commit |
| RunExecutor.RunSession.UpdateCandidate | backend/iterlab/runs/executor.py:386-394 | the result reaches the iteration's candidate and its known benchmarks only |
| RunExecutor.RunSession.StoreResult | backend/iterlab/runs/executor.py:367-396 | row, candidate and results of a success are stored together, or nothing is when the prompt is not registered |
| RunExecutor.RunSession.EndIteration | backend/iterlab/runs/executor.py:399-414 | the candidate is marked evaluated and the context settled by one commit |
| RunExecutor.RunSession.Replay | backend/iterlab/runs/executor.py:248-268 | for whatever order the query returns the rows in: unfinished rows are deleted, finished ones replayed by handler in that order, retries and prior outputs remembered |
| RunExecutor.RunSession.FailStep | backend/iterlab/runs/executor.py:332-365 | a raised step commits its failed row, then pauses if the error is resumable and fails the run otherwise |
| RunExecutor.RunSession.EndStep | backend/iterlab/runs/executor.py:330-396 | what a handler's return, exception or death commits and whether the dispatch goes on |
| RunExecutor.RunSession.RunCell | backend/iterlab/runs/executor.py:278-396 | one cell: the row opened, the handler called with the replayed inputs, its checkpoints and its end, in that order |
| RunExecutor.RunSession.Begin | backend/iterlab/runs/executor.py:171-268 | a dispatch falls back to the defaults, marks the run running and replays it, for every order of the rows |
| RunExecutor.RunSession.RunIteration | backend/iterlab/runs/executor.py:270-396 | the cells of one iteration: skips finished ones, stops at the cap before starting another |
| RunExecutor.RunSession.Finish | backend/iterlab/runs/executor.py:416-426 | the last commit marks the run succeeded |
| RunExecutor.RunSession.RunGrid | backend/iterlab/runs/executor.py:270-426 | the iterations one after the other to the last commit, the volatile sets and histories always agreeing with the committed rows |
| RunExecutor.RunSession.ExecuteRun | backend/iterlab/runs/executor.py:160-426 | every commit and handler call of one dispatch, in order, from the committed rows alone, for every order the query returns them in |
| RunExecutor.ReplayInAnyOrder | backend/iterlab/runs/executor.py:257-261 | with distinct handler keys replay gives the same outputs for every order of the rows |
| RunExecutor.PriorInAnyOrder | backend/iterlab/runs/executor.py:263-266 | prior outputs of retried cells do not depend on the row order |
| RunTheorems.ReplayStableIffDistinct | backend/iterlab/runs/executor.py:249-261 | replay is independent of the row order if and only if the handler keys are distinct |
| RunTheorems.ReplayUnstable | backend/iterlab/runs/executor.py:249-261 | two rows of one handler in one iteration replay differently in the two orders |
| RunReference.ReferenceOrdered | backend/iterlab/runs/executor.py:270-276 | an uninterrupted execution records its cells in grid order, one row each |
| RunReference.ReferenceComplete | backend/iterlab/runs/executor.py:270-276 | an uninterrupted execution records every cell it has passed |
| RunReference.ReferencePrefix | backend/iterlab/runs/executor.py:270-276 | a longer uninterrupted execution extends a shorter one |
| RunReference.ReferenceOutcomes | backend/iterlab/runs/executor.py:393-394 | its benchmark results are the known outcomes of its cells, each once and in order |
| RunReference.ReferenceCandidates | backend/iterlab/runs/executor.py:386-392 | it has at most one candidate per iteration and none for an iteration not reached |
| RunProtocol.FromHolds | backend/iterlab/runs/executor.py:270-426 | every state the executor commits from a replayed one matches the uninterrupted execution up to its frontier |
| RunProtocol.ResumedHolds | backend/iterlab/api/routes/experiments.py:193-230 | a resume keeps the run invariant |
| RunProtocol.ResumeRaisesCap | backend/iterlab/api/routes/experiments.py:216-218 | with caps on the 4-decimal grid a resume sets the rounded sum and never lowers the cap |
| RunProtocol.ReachableHolds | backend/iterlab/runs/executor.py:160-426 | one invariant over every history of dispatches, crashes at any commit, claims, retries and resumes |
| RunTheorems.CommittedShape | backend/iterlab/runs/executor.py:254-304 | succeeded cells form a lexicographic prefix with one row each, at most one unfinished row sits at the next cell, candidates are one per iteration, results are the known outcomes of the prefix |
| RunTheorems.ReachableRowsOk | backend/iterlab/runs/executor.py:249-268 | every reachable state meets what a dispatch needs of the rows it replays |
| RunTheorems.ResumeTransparency | backend/iterlab/runs/executor.py:248-414 | any two histories that end in succeeded leave the same rows, candidates, results and summary, whatever interrupted them and whatever budgets they had; rows read back as they were written |
| RunOrder.DispatchInAnyOrder | backend/iterlab/runs/executor.py:249-261 | with distinct handler keys a dispatch commits the same states and makes the same calls in whatever order the rows come back |
| RunOrder.SameInAnyOrder | backend/iterlab/runs/executor.py:249-261 | with distinct handler keys every history, each dispatch reading the rows in an order of its own, ends where it would with the rows read as written |
| RunOrder.TransparencyInAnyOrder | backend/iterlab/runs/executor.py:248-414 | with distinct handler keys interrupted equals uninterrupted in whatever order every dispatch reads the rows |
| RunOrder.UninterruptedInAnyOrder | backend/iterlab/runs/executor.py:248-426 | and an interrupted run that succeeded left what one uncapped dispatch leaves, apart from the order of rows |
| RunOrder.ContinuesInAnyOrder | backend/iterlab/runs/executor.py:327-351 | after a resumable stop and a resume the next dispatch begins with the same handler call in whatever order it reads the rows |
| RunTheorems.UninterruptedSame | backend/iterlab/runs/executor.py:248-426 | an interrupted run that succeeded left exactly what one uncapped dispatch leaves |
| RunTheorems.DispatchEnds | backend/iterlab/runs/executor.py:178-193 | a dispatch whose process does not die leaves the run paused, failed or succeeded, unless it crashes on an unregistered prompt; failed only by a non-resumable error |
| RunTheorems.ResolvedEnds | backend/iterlab/runs/executor.py:178-193 | with every prompt of the grid registered no dispatch crashes |
| RunTheorems.EveryCallRight | backend/iterlab/runs/executor.py:313-331 | every handler call of every dispatch is at a cell without a succeeded row, with the outputs and history the uninterrupted execution has there, and is a second attempt exactly if an unfinished row was there |
| RunTheorems.SpendBounded | backend/iterlab/runs/executor.py:278-291 | spend without the last succeeded step is below the current cap; a cost pause means spend at or above it, a time stop below it |
| RunTheorems.PausedPrefix | backend/iterlab/runs/executor.py:278-291 | a cost pause is before a cell where the grid so far has cost at least the cap |
| RunTheorems.ResumeLowersCap | backend/iterlab/api/routes/experiments.py:216-218 | a resume lowers the cap if and only if the cap is off the grid and the sum rounds down past it |
| RunTheorems.ZeroBudgetIsDefault | backend/iterlab/runs/executor.py:175 | a requested budget of 0 is the default cap, not no cap |
| RunTheorems.BoundedPauses | backend/iterlab/api/routes/experiments.py:205-230 | with costs at or above 0, default top-ups and any time stops, the cost pauses number at most floor((T-C)/2)+1, none if T is below C |
| RunTheorems.BoundedResumes | backend/iterlab/api/routes/experiments.py:205-230 | so one of the dispatches succeeds once they outnumber that bound plus the time stops |
| RunTheorems.ContinuesWhereItStopped | backend/iterlab/runs/executor.py:327-351 | after a resumable stop and a resume the next handler call is at the same cell, attempt 2, with the stopped output; a cost pause comes first exactly if the cap is reached, which grid caps exclude |
| RunTheorems.ContinuesFrom | backend/iterlab/runs/executor.py:254-291 | the first call of a dispatch that finds an unfinished row, for every such state |
| RunTheorems.DispatchRunning | backend/iterlab/runs/executor.py:207-414 | everything a dispatch commits before its last event is running |
| RunTheorems.StuckIff | backend/iterlab/api/routes/experiments.py:179-203 | no sequence of claims, retries and resumes changes a run if and only if it is scheduled, running or succeeded |
| RunTheorems.StuckAfterCrash | backend/iterlab/runs/runner.py:49-59 | a runner that dies between its claim and its last commit leaves the run scheduled or running for good |
| RunTheorems.UnregisteredPromptCrashes | backend/iterlab/runs/executor.py:371-373 | an unregistered prompt leaves the run running with its row unfinished and nothing of the result stored |
| RunRecords.OutputsGather | backend/iterlab/runs/executor.py:254-261 | the outputs a handler is given for an iteration hold, for every handler that succeeded in it, the output of its last such row, and nothing else |
| RunRecords.RowRecords | backend/iterlab/runs/executor.py:367-381 | every succeeded row of every reachable state holds all the handler returned on what the rows before it left, with each value, and no other key but the three of the prompt, which with the prompt id are those of the registered prompt chosen by version or by text |
| RunRecords.ReturnedOne | backend/iterlab/runs/executor.py:313-331 | the rows before it determine what a row's handler was given and returned |
| RunRecords.RecordsTell | backend/iterlab/runs/executor.py:367-403 | and the whole record of a reachable state: a candidate for exactly the iterations a step gave one to, each field the last one given, extras key by key, and the last non-empty summary |
| RunRecords.KnownKeeps | backend/iterlab/runs/executor.py:132-157 | exactly the outcomes on benchmarks the lab has are kept, in the order given |
| RunRecords.SpendIsCharged | backend/iterlab/runs/executor.py:58-73 | the spend is the sum over the succeeded rows of the number under cost_usd, a boolean counting 0 or 1 dollar, text, null and a missing key nothing |
| RunRecords.PlanTells | backend/iterlab/runs/executor.py:171-202 | in every reachable state the steps are the workflow's with a non-empty agent replaced by the one asked for and nothing else changed, and the iterations those asked for or, for none or 0, the workflow's |
| RunRecords.CreatedTells | backend/iterlab/api/routes/experiments.py:117-134 | a new run is pending with nothing recorded and the iterations, agent and budget asked for, a budget of 0 staying 0 |
| RunRecords.QueueTells | backend/iterlab/api/routes/experiments.py:175-230 | a claim takes only pending runs, a retry only failed and cancelled ones, a resume only paused ones; none touches the work, only a resume the context, and in any other status nothing changes |
| RunRecords.ResumeTells | backend/iterlab/api/routes/experiments.py:205-226 | a resume raises the budget in force to the nearest multiple of 100 micro-USD of the sum, ties to even, and the timeout by what is asked; asked for nothing it adds 2 USD, or an hour after a time stop; nothing else changes but the status and the pause kind |
| RunDispatch.OpeningTells | backend/iterlab/runs/executor.py:204-268 | a dispatch first commits the run as running and then deletes the one row that has not succeeded, if any; nothing else changes |
| RunDispatch.CapHolds | backend/iterlab/runs/executor.py:278-291 | no handler is called and no row opened while the succeeded rows report the cap or more; a cost pause is the last event, on unchanged rows that report at least the cap with a cell still to do |
| RunDispatch.PausesAtCap | backend/iterlab/runs/executor.py:278-291 | whenever the committed rows have all succeeded, report the cap or more and leave a cell to do, no handler is called any more and the last commit is a cost pause on those rows |
| RunDispatch.CallGets | backend/iterlab/runs/executor.py:293-331 | every handler call is for the first cell to do, with its fresh row open, given exactly what the succeeded rows before it left; attempt 2 exactly if the dispatch found an unfinished row there, with that row's output if not empty |
| RunDispatch.CallsFollowed | backend/iterlab/runs/executor.py:306-396 | the n-th call goes as the n-th attempt: its checkpoints are committed one by one, merged key by key, then nothing (death), the failed row with the raised output and the pause or failure, the succeeded row with what the handler returned, or nothing when no registered prompt is the one used |
| RunDispatch.CommitsTell | backend/iterlab/runs/executor.py:178-426 | the context of every commit: unchanged while an iteration runs; at its end, at a pause, a failure and the success the limits in force, the money reported, how many iterations are done and why it stopped; an iteration's end marks its candidate and no other |
| RunDispatch.EvaluatedTells | backend/iterlab/runs/executor.py:399-403 | in every reachable state a candidate is marked evaluated only when every cell of its iteration has succeeded, before any row of a later iteration, and always in a succeeded run |
| RunLifecycle.RunTable.constructor | backend/iterlab/api/routes/experiments.py:129-136 | a table starts without runs |
| RunLifecycle.RunTable.CreateRun | backend/iterlab/api/routes/experiments.py:106-137 | a workflow without steps is refused; otherwise one pending run with resolved iterations and budget is added |
| RunLifecycle.RunTable.RetryRun | backend/iterlab/api/routes/experiments.py:175-185 | only failed and cancelled runs go back to pending; anything else is refused unchanged |
| RunLifecycle.RunTable.ResumeRun | backend/iterlab/api/routes/experiments.py:193-230 | only paused runs are topped up and go back to pending; anything else is refused unchanged |
| RunLifecycle.RunTable.ClaimNextRun | backend/iterlab/runs/runner.py:33-46 | the oldest pending run becomes scheduled, no other run changes |
| RunLifecycle.RunTable.RunOne | backend/iterlab/runs/runner.py:49-59 | claim and dispatch together, for every order of the rows: only what was committed stays, no other run changes |
| RunLifecycle.DispatchExplained | backend/iterlab/runs/runner.py:49-59 | with distinct handler keys a run keeps a history that explains it, apart from the order of its rows |
| RunLifecycle.AlwaysExclusive | backend/iterlab/runs/runner.py:33-59 | over every interleaving of runners and API callers no run is executed by two runners |
| RunLifecycle.EachRunReachable | backend/iterlab/runs/runner.py:49-73 | every run of the whole system goes through a history of the single-run protocol |
| RunLifecycle.LegalTransitions | backend/iterlab/api/routes/experiments.py:175-230 | pending is entered only by create, retry of a failed or cancelled run or resume of a paused one; scheduled only by claiming the oldest; succeeded is never left |
| RunLifecycle.CommittedStatuses | backend/iterlab/runs/executor.py:207-424 | a dispatch commits no status but running, paused, failed and succeeded |
| Scheduler.Deduct | backend/iterlab/scheduler/simple.py:39-40 | every required key goes down by its requirement, missing keys from 0, no other key changes |
| Scheduler.HealthyWorkers | backend/iterlab/scheduler/simple.py:24-28 | the unhealthy workers are dropped and the rest keep their order and resources |
| Scheduler.Plan | backend/iterlab/scheduler/simple.py:21-44 | the loops with in-place deduction return the placed choices of the greedy assignment |
| Scheduler.RemainingIsUnused | backend/iterlab/scheduler/simple.py:39-40 | what a worker has left is what it advertised minus the requirements placed on it, per key |
| Scheduler.GreedyFeasible | backend/iterlab/scheduler/simple.py:32-42 | the greedy assignment respects labels and never exceeds what a worker advertises |
| Scheduler.LexLeastPlan | backend/iterlab/scheduler/simple.py:32-42 | unless a task gives back what an earlier one that could share its worker asks for, the greedy choice is the lexicographically least feasible one, unassigned ranked last |
| Scheduler.AlwaysLeastIff | backend/iterlab/scheduler/simple.py:32-42 | the greedy choice is the least on all workers if and only if no task has a negative requirement on a key that an earlier task with compatible labels asks for |
| Scheduler.PlanFirstFit | backend/iterlab/scheduler/simple.py:24-44 | a task is placed on a worker if and only if that is the first one given that is healthy, has its labels, and has enough left by the placed tasks of higher priority, or of equal priority and smaller id |
| Scheduler.PlanInOrder | backend/iterlab/scheduler/simple.py:32-41 | the assignments are listed by their tasks' priority, highest first, then id |
| Scheduler.PlanLeast | backend/iterlab/scheduler/simple.py:21-44 | the returned plan is the one of the least feasible choice of the healthy workers, in the order given, for the tasks by priority, highest first, then id |
| Scheduler.WorkConserving | backend/iterlab/scheduler/simple.py:32-42 | with no such task, no unplaced task fits what any matching worker has left |
| Scheduler.PlanConserves | backend/iterlab/scheduler/simple.py:21-44 | the same of the returned plan: a task it leaves out does not fit what the plan leaves of any healthy worker with its labels |
| Scheduler.PlanSafe | backend/iterlab/scheduler/simple.py:21-44 | each task is placed at most once, on a healthy worker with its labels, and the tasks on a worker take no more of what one of them asks for than it advertises |
| Scheduler.PlanIndependent | backend/iterlab/scheduler/simple.py:32 | with distinct ids, permuting the task list does not change the plan |
| Scheduler.PlanStable | backend/iterlab/scheduler/simple.py:32-44 | with distinct ids, adding tasks of lower priority, or of equal priority and larger id, keeps every assignment |
| Grades.Grader.constructor | backend/iterlab/runs/grades.py:98-109 | a pass starts with no frontier, no best and empty accumulators |
| Grades.Grader.BestOf | backend/iterlab/runs/grades.py:118 | the maximum of a run's scores |
| Grades.Grader.GradeAgent | backend/iterlab/runs/grades.py:119-131 | the agent's accumulator takes exactly this run's share, the others stay |
| Grades.Grader.Credit | backend/iterlab/runs/grades.py:140-156 | one attributed candidate updates its prompt and the running best, the others stay |
| Grades.Grader.GradeRun | backend/iterlab/runs/grades.py:114-158 | frontier, agents and prompts after one more run are what the definitions say of all runs so far |
| Grades.Grader.GradeAll | backend/iterlab/runs/grades.py:108-158 | the whole pass refines the definitions: frontier is the best of all earlier runs, each delta is a run's best minus it |
| Grades.MaxOfIsMax | backend/iterlab/runs/grades.py:118 | the frontier definition is the maximum: a member, and above every member |
| GradeLaws.GradesConserve | backend/iterlab/runs/grades.py:114-158 | positive deltas sum to the final frontier minus the first scored run's best, new-bests to one more than the positive deltas, runs and candidates to the scored ones, and there is a delta for every scored run but the first |
| GradeLaws.PromptUsesConserve | backend/iterlab/runs/grades.py:142-153 | a prompt's uses are its deltas plus its iteration-0 uses in the first scored run and later uses in runs without a scored iteration 0 |
| GradeLaws.NewBestsAreRecords | backend/iterlab/runs/grades.py:146-156 | prompt new-bests together are the strict records among attributed candidates |
| GradeLaws.LabWideRecords | backend/iterlab/runs/grades.py:146-156 | they are the lab's records when every scored candidate is attributed |
| GradeLaws.SeenIff | backend/iterlab/runs/grades.py:138-156 | the running best never exceeds the lab's and equals it if and only if there is no candidate yet or an attributed one has the best score |
| GradeLaws.CountedRightIff | backend/iterlab/runs/grades.py:138-156 | at any candidate of any run, new bests are counted as lab records whatever the next score if and only if an attributed candidate has the lab's best score; a record is never missed |
| GradeLaws.UnattributedNotSeen | backend/iterlab/runs/grades.py:138-139 | an input where that fails: a worse candidate after an unattributed one counts as a new best |
| GradeLaws.AgentBoardRanked | backend/iterlab/runs/grades.py:160-174 | highest average delta first, agents without one last, ties by first use, nobody lost |
| GradeLaws.PromptBoardRanked | backend/iterlab/runs/grades.py:176-204 | by slug, then average delta with missing ones last, ties by first use, nobody lost |
| GradeFacts.AgentTells | backend/iterlab/runs/grades.py:114-131 | an agent is graded on exactly its scored runs in order: their scores, costs and last time, how many beat every earlier score of the lab, and for each but the lab's first scored run its best minus the best of all earlier runs, whatever the sign |
| GradeFacts.AgentsTell | backend/iterlab/runs/grades.py:85-90 | the agents are those with a scored run in order of their first, a run's agent being the first one its steps name |
| GradeFacts.CostsTell | backend/iterlab/runs/grades.py:126 | exactly the known costs are kept, in order |
| GradeFacts.UsesTell | backend/iterlab/runs/grades.py:133-140 | the uses are the candidates whose iteration used a prompt, the last one it used, with the best of all earlier runs and the run's first iteration-0 score |
| GradeFacts.PromptTells | backend/iterlab/runs/grades.py:142-156 | a prompt is graded on exactly its uses in order: scores, known costs, how many were above every use before, and the signed distance from the lab's best or from the run's iteration 0 |
| GradeFacts.PromptsTell | backend/iterlab/runs/grades.py:136-141 | the prompts are graded in order of their first use |
| GradeFacts.PromptGradesTell | backend/iterlab/runs/grades.py:176-203 | one grade for every prompt that still has a row, under its slug and version |
| GradeFacts.AgentGradeTells | backend/iterlab/runs/grades.py:160-173 | averages, greatest delta and new-best rate, each to the nearest hundredth with ties to even, missing without anything to average |
| GradeFacts.PromptGradeTells | backend/iterlab/runs/grades.py:181-203 | the same for a prompt over its cold starts and lifts together, with the basis that says which it has |
| AuthServer.TokenServer.constructor | backend/iterlab/services/auth_service.py:108-126 | a server starts without sessions |
| AuthServer.TokenServer.Register | backend/iterlab/services/auth_service.py:42-51 | unsupported or rejected registrations change nothing, others issue one session |
| AuthServer.TokenServer.Login | backend/iterlab/services/auth_service.py:54-61 | rejected credentials change nothing, others issue one session |
| AuthServer.TokenServer.Refresh | backend/iterlab/services/auth_service.py:64-93 | unknown, reused, expired and unavailable in that order, else a rotation |
| AuthServer.TokenServer.Logout | backend/iterlab/services/auth_service.py:96-102 | revokes the presented session if it is live and nothing else |
| AuthServer.TokenServer.Issue | backend/iterlab/services/auth_service.py:108-142 | appends a live session and revokes and links the parent, if there is one |
| AuthServer.TokenServer.RevokeAll | backend/iterlab/services/auth_service.py:145-151 | revokes the user's live sessions and keeps earlier revocation times |
| AuthServer.RefreshSucceeds | backend/iterlab/services/auth_service.py:64-93 | a refresh succeeds if and only if its token is known, unrevoked, unexpired and of an active account; it then appends one live session of that user with the lifetime from now, and revokes and links the old one |
| AuthServer.RefreshRefused | backend/iterlab/services/auth_service.py:64-93 | each reason for a refusal applies exactly when its condition holds and no earlier one does |
| AuthServer.SignInIssues | backend/iterlab/services/auth_service.py:42-61 | an accepted registration or login appends one live session of the user with the lifetime from now, a refused one changes nothing |
| AuthServer.LogoutRevokes | backend/iterlab/services/auth_service.py:96-102 | a logout revokes the presented session now if it is live and leaves every other row |
| AuthServer.ReachableChained | backend/iterlab/services/auth_service.py:108-131 | over every history rotated_to leads forward, inside one user, from revoked sessions, no two to the same one |
| AuthServer.ChainShape | backend/iterlab/services/auth_service.py:129-131 | a chain climbs, belongs to one user and only its tip can be unrevoked |
| AuthServer.ChainsDisjoint | backend/iterlab/services/auth_service.py:129-131 | chains with the same tip are one chain |
| AuthServer.RedeemedOnce | backend/iterlab/services/auth_service.py:77-93 | over every history a token is redeemed at most once, and exactly the linked ones were |
| AuthServer.TipsAreSignIns | backend/iterlab/services/auth_service.py:42-93 | every successful registration or login starts one chain and nothing else does |
| AuthServer.LiveBounded | backend/iterlab/services/auth_service.py:42-102 | a user's unrevoked sessions never outnumber their registrations plus logins |
| AuthServer.ReuseRevokesUser | backend/iterlab/services/auth_service.py:77-83 | presenting a revoked token leaves its user with no live session and other users untouched |
| AuthServer.RevocationIsFinal | backend/iterlab/services/auth_service.py:64-151 | a revocation is never undone or redated, and no session disappears or changes user |
| AuthServer.LockedOut | backend/iterlab/services/auth_service.py:77-93 | a user with no live session redeems nothing until they sign in |
| AuthClient.ApiClient.constructor | web/src/lib/api.ts:52-55 | a loaded page has the stored token and nothing in progress |
| AuthClient.ApiClient.SetSession | web/src/lib/api.ts:57-65 | both tokens are replaced or both dropped |
| AuthClient.ApiClient.Fetch | web/src/lib/api.ts:124-129 | a call sends its first request |
| AuthClient.ApiClient.RefreshSession | web/src/lib/api.ts:100-109 | joins the refresh in flight, or starts one with the stored token |
| AuthClient.ApiClient.OnResponse | web/src/lib/api.ts:130-136 | only a first 401 of an authed call with a stored token waits for a refresh |
| AuthClient.ApiClient.OnRefreshReply | web/src/lib/api.ts:110-116 | a refusal drops the session, a success stores the new tokens |
| AuthClient.ApiClient.OnRefreshError | web/src/lib/api.ts:104-109 | a request that fails on the network ends the refresh and keeps the stored token |
| AuthClient.ApiClient.OnSettled | web/src/lib/api.ts:117-119 | the refresh is cleared and every waiting call gets its result |
| AuthClient.ApiClient.Resume | web/src/lib/api.ts:131-133 | a waiting call sends its request again after a success and ends after a failure |
| AuthClient.ApiClient.OnSignedIn | web/src/lib/api.ts:140-169 | login and registration store the tokens of their response |
| AuthClient.ApiClient.OnSignedOut | web/src/lib/api.ts:171-184 | a logout drops both tokens at its end |
| AuthRetry.RequestsSent | web/src/lib/api.ts:71-82 | over every history a call sends its request once or twice, and every request carries the access token of the last refresh or sign-in that took effect |
| AuthRetry.CallsEnd | web/src/lib/api.ts:124-136 | a call that waited on a refresh answered with tokens sends its request exactly once more and ends with that response; one whose refresh ended otherwise sends no second one and ends unauthorized; any other ends with its first response |
| AuthRetry.WaitersGoOn | web/src/lib/api.ts:130-133 | a call whose refresh is over is finished, retrying, or can go on at once, to send again exactly if tokens came |
| AuthClient.StepSafe | web/src/lib/api.ts:98-136 | every orderly step of tab, network, server and other clients keeps the single-flight invariant |
| AuthClient.NeverReused | web/src/lib/api.ts:98-136 | whatever the interleaving, a refresh request the server handles carries a live token, so reuse detection does not fire, and at most one is outstanding |
| AuthClient.StaysSignedIn | web/src/lib/api.ts:98-136 | with nothing in progress the stored token is live |
| AuthClient.NeverStuck | web/src/lib/api.ts:98-136 | a waiting call always has a refresh that can take its next step |
| AuthClient.SecondTabTrips | web/src/lib/api.ts:52-55 | two tabs on one stored token trip reuse detection |
| AuthClient.LostAnswerTrips | web/src/lib/api.ts:104-109 | a lost refresh answer trips it at the next 401 |
| AuthClient.LogoutDuringRefreshTrips | web/src/lib/api.ts:171-184 | a logout started during a refresh trips it |
| AuthClient.RefreshDuringLogoutTrips | web/src/lib/api.ts:171-184 | a late 401 during a logout trips it |
| AuthClient.LogoutElsewhereTrips | backend/iterlab/services/auth_service.py:96-102 | another client's logout of the tab's token trips it |
| AuthClient.ReplayElsewhereTrips | backend/iterlab/services/auth_service.py:77-83 | a replay of an older token of the same user takes the tab's session with it |
| Prompts.Registry.constructor | backend/iterlab/prompts/loader.py:48-58 | a new deployment has no labs |
| Prompts.Registry.FilesIn | backend/iterlab/prompts/loader.py:65-69 | the version files of one directory, a later spelling of a version replacing an earlier one |
| Prompts.Registry.QueryExisting | backend/iterlab/prompts/loader.py:73-78 | the registered versions of one slug |
| Prompts.Registry.SyncLine | backend/iterlab/prompts/loader.py:79-100 | one slug: new versions registered in ascending order, edited ones reported, the versions present listed |
| Prompts.Registry.SyncLabPrompts | backend/iterlab/prompts/loader.py:48-109 | one lab's directories, none of them when there is no instance directory |
| Prompts.Registry.Bind | backend/iterlab/labs/loader.py:103-116 | the bindings computed slug by slug in any order |
| Prompts.Registry.SyncLab | backend/iterlab/labs/loader.py:84-116 | a lab is created if missing, its prompts registered and its bindings replaced, unless drift is fatal |
| Prompts.Registry.SyncInstanceLabs | backend/iterlab/labs/loader.py:197-208 | all labs are committed together at the end, or none |
| PromptLaws.DriftExact | backend/iterlab/prompts/loader.py:79-100 | drift is reported for exactly the edited files of registered versions |
| PromptLaws.FilesRegistered | backend/iterlab/prompts/loader.py:79-92 | after a sync every version with a file is registered, new ones under the file's text, old ones under their old text |
| PromptLaws.FirstTextForever | backend/iterlab/prompts/loader.py:10-13 | over every history of edits and syncs a registered version keeps its row and no other row takes its name |
| PromptLaws.FatalDriftCommitsNothing | backend/iterlab/prompts/loader.py:103-106 | with fatal drift one file that is edited when its lab's turn comes keeps every lab unchanged; otherwise every lab is synced |
| PromptLaws.BindingRule | backend/iterlab/labs/loader.py:103-116 | a slug is bound if and only if it has version files and its wanted version, if any, is registered; to the wanted one or the newest |
| PromptLaws.BindingsRegistered | backend/iterlab/labs/loader.py:103-116 | over every history every binding names a registered version |
| PromptLaws.ResolveFinds | backend/iterlab/runs/executor.py:109-129 | a prompt resolves to the row of its version if there is one, else to a row of the same text, else not at all |
| PromptLaws.BoundResolves | backend/iterlab/runs/executor.py:235-246 | a prompt read through its binding resolves to that very row when the handler returns it, however many syncs of however edited files come in between |
| PromptFiles.VersionTells | backend/iterlab/prompts/loader.py:36-69 | a file name is of version n if and only if it is v, any zeros, n in decimal and .md |
| PromptFiles.FilesTell | backend/iterlab/prompts/loader.py:65-69 | a version is there if and only if a file is, with the text of the last file listed for it |
| PromptFiles.IdsTell | backend/iterlab/prompts/loader.py:79-92 | over every history no two prompts of a lab share an id: the model numbers them as they are registered |
| PackedQueue.RedisBackend.constructor | backend/iterlab/queues/redis_queue.py:26-28 | a new backend has pushed nothing |
| PackedQueue.RedisBackend.PushMessage | backend/iterlab/queues/redis_queue.py:44-47 | a push takes the next number and scores the message with it |
| PackedQueue.RedisBackend.PopMessage | backend/iterlab/queues/redis_queue.py:49-55 | a pop removes the least member of the topic, if any |
| PackedQueue.RedisBackend.QueueSize | backend/iterlab/queues/redis_queue.py:57-58 | the size counts the members of the topic |
| Binary64.FlTells | backend/iterlab/queues/redis_queue.py:46 | each product and sum of a score is stored as the nearest number of 53 significant bits, of two as near the one whose last bit is 0 (section 4.3.1 of IEEE 754-2008) |
| PackedQueue.ScoreIsExact | backend/iterlab/queues/redis_queue.py:46 | a score whose parts need at most 53 bits is priority times 10^12 plus the push number |
| PackedQueue.StorablePriorities | backend/iterlab/queues/redis_queue.py:46 | that holds for all push numbers below 10^12 if and only if the priority is from -9007 to 9006 |
| PackedQueue.PriorityDecides | backend/iterlab/queues/redis_queue.py:46 | of two exact scores the smaller priority wins whatever the two priorities if and only if its push is less than 10^12 after the other |
| PackedQueue.InOrderIff | backend/iterlab/queues/redis_queue.py:44-47 | pushes of one priority score in the order they were made if and only if the priority is from -9007 to 9006 |
| PackedQueue.HeadIsFront | backend/iterlab/queues/redis_queue.py:49-55 | with exact scores and no queued message overtaken the least member is the first message of the smallest priority |
| PackedQueue.HeadAlwaysFrontIff | backend/iterlab/queues/redis_queue.py:49-55 | for given push numbers the least member is the front under all priorities if and only if no two queued messages are 10^12 pushes apart (at exactly 10^12 the names decide) |
| PackedQueue.SameAnswers | backend/iterlab/queues/redis_queue.py:44-58 | a history whose every pop finds exact scores and no such pair is answered exactly as by the reference queue |
| PackedQueue.SoundBelowSpan | backend/iterlab/queues/redis_queue.py:44-58 | fewer than 10^12 pushes of priorities -9007 to 9006 meet those conditions |
| PackedQueue.OvertakenIff | backend/iterlab/queues/redis_queue.py:44-55 | a message of priority 0 is overtaken by an earlier one of priority 1 if and only if 10^12 or more pushes lie between them |
| PackedQueue.PriorityRightIff | backend/iterlab/queues/redis_queue.py:44-58 | histories of fewer than 10^12 pushes of one priority are answered right if and only if it is from -9007 to 9006 |
| PackedQueue.QueuedOnce | backend/iterlab/queues/redis_queue.py:47 | after a push the sorted set has exactly one member for the message, at the new score, and every other member as before |
| LabelRanking.NumberIffDigit | backend/iterlab/benchmarks/builtin/candidate_labels.py:44-49 | a label has a number if and only if it has a digit |
| LabelRanking.ReadsBack | backend/iterlab/benchmarks/builtin/candidate_labels.py:44-49 | a number after text without digits is read back, with the sign of a minus right before it |
| LabelFacts.NumberTells | backend/iterlab/benchmarks/builtin/candidate_labels.py:44-49 | the number of a label is its first run of digits with a minus right before it and a point and digits right behind it, whatever follows |
| LabelFacts.TierTells | backend/iterlab/benchmarks/builtin/candidate_labels.py:164-173 | the tier is the first the label starts with, whatever case and the spaces around it, or past them all |
| LabelFacts.OrderTells | backend/iterlab/benchmarks/builtin/candidate_labels.py:153-183 | when one label comes before another under each strategy: by tier, then number in the asked direction with missing ones last, then the first differing character |
| LabelFacts.LabelledTells | backend/iterlab/benchmarks/builtin/candidate_labels.py:75-88 | an entry for exactly the candidates with a non-empty label, with its value, in order |
| LabelFacts.BaselinesTell | backend/iterlab/benchmarks/builtin/candidate_labels.py:99-103 | a name is a baseline exactly if the spec lists it or a reference row says so |
| LabelRanking.LabelsTotal | backend/iterlab/benchmarks/builtin/candidate_labels.py:153-183 | every strategy orders labels totally and only equal labels tie |
| LabelRanking.LabelsTransitive | backend/iterlab/benchmarks/builtin/candidate_labels.py:153-183 | every strategy's order is transitive |
| LabelRanking.NoNumberLast | backend/iterlab/benchmarks/builtin/candidate_labels.py:169-182 | labels without a number come last, or last in their tier, in both directions |
| LabelRanking.NumericReverses | backend/iterlab/benchmarks/builtin/candidate_labels.py:180-182 | numeric desc reverses asc exactly between labels with different numbers |
| LabelRanking.LexicalReverses | backend/iterlab/benchmarks/builtin/candidate_labels.py:159-162 | lexical desc reverses asc exactly between labels neither of which is a prefix of the other |
| LabelRanking.Leaderboard | backend/iterlab/benchmarks/builtin/candidate_labels.py:74-121 | rows are ranked 1 to n over the sorted entries, baselines marked |
| LabelRanking.Ranks | backend/iterlab/benchmarks/builtin/candidate_labels.py:104-105 | the table is a stable sorted permutation of the labelled candidates and references |
| LabelRanking.NumberedFirst | backend/iterlab/benchmarks/builtin/candidate_labels.py:104-121 | once a row of a numeric table has no number no later one has |

## Left out

- FastAPI routing, schemas, permissions, logging, error texts and mapping: no property of their own.
- Database isolation and row locks: each API call, each claim and each commit is one atomic step, so whether two `UPDATE`s can claim the same run under a given isolation level is not covered.
- Rows as objects: committed tables are sequences of values, and the ORM's identity map is not modelled.
- Changes of the workflow, the lab's benchmarks and prompts, and the deployment defaults during a run's life: one run sees one workflow.
- Time stamps, error and pause texts, `agent_session_id`, log lines, and the `lab`, `experiment` and `agents` views a handler gets: a success is a function of step, iteration, outputs and history.
- `iterations_done` after a failure is the value the dispatch began with, as the code keeps it (`backend/iterlab/runs/executor.py:357-363`); `RunDispatch.CommitsTell` says so.
- Ids: a prompt id is a number, where the code has a UUID and records its string under `prompt_id`.
- Floating point in costs: amounts are whole micro-USD and sums are exact; a step cost below one micro-USD and the rounding of a binary64 sum are not modelled. The cap and resume theorems that need the 4-decimal grid say so.
- RunExecutor.RunSession.FindRegistered: of two registered versions with the same text a lookup by content takes the older one, where the database may return either.
- Labels on candidates (`PATCH /candidates`): they do not touch what a run writes.
- The status `lost`, which `retry_run` accepts but no code assigns and `RunStatus` does not have.
- Wall-clock timeouts: `step_timeout_s` is carried and topped up; a handler that exceeds it raises like any other.
- RunLifecycle.RunTable.ClaimNextRun: among pending runs created at the same instant the first in the table is taken, where the database may take any.
- Scheduler.Plan: workers have distinct ids, as keys of the dictionary the code builds; with a duplicate the code keeps the later worker's data under the earlier position.
- Scheduler.WorkConserving: no exact condition is given for lists in which a task gives back what an earlier one asks for; whether a left-out task fits at the end then depends on what every later task takes or gives back.
- Resource amounts are integers; the order laws use nothing else about them.
- Grades.Grader.GradeAll: rounding for display is kept apart from the laws, which are about unrounded values; a prompt row that was deleted is not modelled.
- Grades over equal creation times: the runs come in the order the query returns them.
- Password hashing, JWT contents, SHA-256 and token randomness: tokens are fresh and hashes injective, so a token is the number of its session.
- AuthServer.TokenServer.Refresh: one clock reading serves the expiry test and the new session, where the code reads the clock twice.
- AuthClient.NeverReused: a tab's login and registration are one action, and an answer other than success (including a server error) is one case, as the code treats it.
- Sessions deleted with their user (`ON DELETE CASCADE`): users stay.
- Page navigation, other storage writers and the pages that call `apiFetch`.
- Prompts.Registry.SyncInstanceLabs: the agents, benchmarks, projects and experiments synced in the same commit are not modelled, nor is the caller that logs the exception of a fatal drift and goes on.
- Prompts.Registry.FilesIn: digits other than 0 to 9 in a version, which the pattern and `int` accept.
- Redis itself: a sorted set is a list ordered by score and member; blocking pops, locks and the key-value operations are out, and so are several backend instances on one topic, whose numbers would clash.
- Priorities so large that their score leaves the range of binary64 (about 10^308), where the code raises or stores infinity.
- LabelRanking.ReadsBack: Unicode digits, spaces and case, and the rounding of decimal text to binary64; numbers are exact reals.
- LabelRanking.Leaderboard: columns, notes and display names; a candidate's name is given.
- Filesystem storage, schema bootstrap, environment parsing, the SQL leaderboard, the worker HTTP client and the web pages: easy, I/O or user interface.
