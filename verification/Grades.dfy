/** Grading agents and prompts by how they moved a lab's frontier: one pass with two running maxima
    and per-key accumulators, against definitions that look at one key and all earlier runs. */
module Grades {
  import opened Options

  datatype Candidate = Candidate(iteration: nat, score: real, cost: Option<real>)

  /** A recorded step: the agent its output names ("" for none) and the prompt it used. */
  datatype Step = Step(iteration: nat, agent: string, prompt: Option<nat>)

  /** A run with its steps and its scored candidates, in iteration order. */
  datatype Run = Run(createdAt: nat, steps: seq<Step>, cands: seq<Candidate>)

  datatype AgentAcc = AgentAcc(runs: nat, scores: seq<real>, deltas: seq<real>, costs: seq<real>, newBest: nat, last: nat)

  datatype PromptAcc = PromptAcc(uses: nat, scores: seq<real>, costs: seq<real>, newBest: nat, cold: seq<real>, iter: seq<real>)

  const NO_AGENT_ACC := AgentAcc(0, [], [], [], 0, 0)
  const NO_PROMPT_ACC := PromptAcc(0, [], [], 0, [], [])

  // ----- definitions --------------------------------------------------------------------------------

  function MaxOf(s: seq<real>): Option<real> {
    if s == [] then None
    else
      var m, x := MaxOf(s[..|s| - 1]), s[|s| - 1];
      if m.Some? && m.value >= x then m else Some(x)
  }

  lemma {:induction false} MaxOfIsMax(s: seq<real>)
    ensures MaxOf(s).None? <==> s == []
    ensures MaxOf(s).Some? ==> MaxOf(s).value in s && forall x :: x in s ==> x <= MaxOf(s).value
  {
    if s != [] {
      MaxOfIsMax(s[..|s| - 1]);
      assert s == s[..|s| - 1] + [s[|s| - 1]];
    }
  }

  lemma {:induction false} MaxOfConcat(a: seq<real>, b: seq<real>)
    ensures MaxOf(a + b) ==
      if MaxOf(b).None? then MaxOf(a)
      else if MaxOf(a).Some? && MaxOf(a).value >= MaxOf(b).value then MaxOf(a)
      else MaxOf(b)
  {
    if b == [] {
      assert a + b == a;
    } else {
      var n := |b| - 1;
      MaxOfConcat(a, b[..n]);
      assert (a + b)[..|a + b| - 1] == a + b[..n];
    }
  }

  function ScoresOf(cands: seq<Candidate>): (s: seq<real>)
    ensures |s| == |cands|
  {
    seq(|cands|, i requires 0 <= i < |cands| => cands[i].score)
  }

  function AllScores(runs: seq<Run>): seq<real> {
    if runs == [] then [] else AllScores(runs[..|runs| - 1]) + ScoresOf(runs[|runs| - 1].cands)
  }

  function CostsOf(cands: seq<Candidate>): seq<real> {
    if cands == [] then []
    else
      var before, c := CostsOf(cands[..|cands| - 1]), cands[|cands| - 1].cost;
      if c.Some? then before + [c.value] else before
  }

  /** The best score over all the given runs' candidates. */
  function Best(runs: seq<Run>): Option<real> {
    MaxOf(AllScores(runs))
  }

  /** The first agent a step of the run named. */
  function AgentFrom(steps: seq<Step>, from: nat): string
    decreases |steps| - from
  {
    if from >= |steps| then "unknown"
    else if steps[from].agent != "" then steps[from].agent
    else AgentFrom(steps, from + 1)
  }

  /** The prompt of the iteration's last step that used one. */
  function PromptAt(steps: seq<Step>, iteration: nat): Option<nat> {
    if steps == [] then None
    else
      var last := steps[|steps| - 1];
      if last.iteration == iteration && last.prompt.Some? then last.prompt
      else PromptAt(steps[..|steps| - 1], iteration)
  }

  function Iteration0(cands: seq<Candidate>, from: nat): Option<real>
    decreases |cands| - from
  {
    if from >= |cands| then None
    else if cands[from].iteration == 0 then Some(cands[from].score)
    else Iteration0(cands, from + 1)
  }

  /** A run's frontier delta: its best minus the best over all earlier runs. */
  function Delta(earlier: seq<Run>, run: Run): Option<real>
    requires run.cands != []
  {
    MaxOfIsMax(ScoresOf(run.cands));
    if Best(earlier).None? then None else Some(MaxOf(ScoresOf(run.cands)).value - Best(earlier).value)
  }

  function WithRun(acc: AgentAcc, earlier: seq<Run>, run: Run): AgentAcc
    requires run.cands != []
  {
    var delta := Delta(earlier, run);
    AgentAcc(acc.runs + 1, acc.scores + ScoresOf(run.cands),
             if delta.Some? then acc.deltas + [delta.value] else acc.deltas,
             acc.costs + CostsOf(run.cands),
             if delta.None? || delta.value > 0.0 then acc.newBest + 1 else acc.newBest,
             run.createdAt)
  }

  /** What the scored runs of one agent amount to. */
  function AgentSpec(runs: seq<Run>, agent: string): AgentAcc {
    if runs == [] then NO_AGENT_ACC
    else
      var earlier, run := runs[..|runs| - 1], runs[|runs| - 1];
      var acc := AgentSpec(earlier, agent);
      if run.cands != [] && AgentFrom(run.steps, 0) == agent then WithRun(acc, earlier, run) else acc
  }

  /** The agents with a scored run, by first use. */
  function Agents(runs: seq<Run>): seq<string> {
    if runs == [] then []
    else
      var earlier, run := runs[..|runs| - 1], runs[|runs| - 1];
      var before := Agents(earlier);
      var agent := AgentFrom(run.steps, 0);
      if run.cands != [] && agent !in before then before + [agent] else before
  }

  /** A scored candidate a prompt is credited with. */
  datatype Use = Use(prompt: nat, iteration: nat, score: real, cost: Option<real>, frontier: Option<real>, iter0: Option<real>)

  function UsesIn(earlier: seq<Run>, run: Run, n: nat): seq<Use>
    requires n <= |run.cands|
  {
    if n == 0 then []
    else
      var before, c := UsesIn(earlier, run, n - 1), run.cands[n - 1];
      var prompt := PromptAt(run.steps, c.iteration);
      if prompt.None? then before
      else before + [Use(prompt.value, c.iteration, c.score, c.cost, Best(earlier), Iteration0(run.cands, 0))]
  }

  /** Every attributed candidate of the lab, in order. */
  function Uses(runs: seq<Run>): seq<Use> {
    if runs == [] then []
    else
      var earlier, run := runs[..|runs| - 1], runs[|runs| - 1];
      Uses(earlier) + UsesIn(earlier, run, |run.cands|)
  }

  function UseScores(uses: seq<Use>): (s: seq<real>)
    ensures |s| == |uses|
  {
    seq(|uses|, i requires 0 <= i < |uses| => uses[i].score)
  }

  /** A strict record: above every earlier attributed score. */
  predicate IsRecord(earlier: seq<Use>, use: Use) {
    var best := MaxOf(UseScores(earlier));
    best.None? || use.score > best.value
  }

  function WithUse(acc: PromptAcc, earlier: seq<Use>, use: Use): PromptAcc {
    PromptAcc(acc.uses + 1, acc.scores + [use.score],
              if use.cost.Some? then acc.costs + [use.cost.value] else acc.costs,
              if IsRecord(earlier, use) then acc.newBest + 1 else acc.newBest,
              if use.iteration == 0 && use.frontier.Some? then acc.cold + [use.score - use.frontier.value] else acc.cold,
              if use.iteration != 0 && use.iter0.Some? then acc.iter + [use.score - use.iter0.value] else acc.iter)
  }

  /** What the uses of one prompt amount to. */
  function PromptSpec(uses: seq<Use>, prompt: nat): PromptAcc {
    if uses == [] then NO_PROMPT_ACC
    else
      var earlier, use := uses[..|uses| - 1], uses[|uses| - 1];
      var acc := PromptSpec(earlier, prompt);
      if use.prompt == prompt then WithUse(acc, earlier, use) else acc
  }

  function Prompts(uses: seq<Use>): seq<nat> {
    if uses == [] then []
    else
      var before, p := Prompts(uses[..|uses| - 1]), uses[|uses| - 1].prompt;
      if p in before then before else before + [p]
  }

  // ----- the pass as the source writes it ----------------------------------------------------------

  /** The running state of `compute_lab_grades`. The dictionaries keep their insertion order. */
  class Grader {
    var frontier: Option<real>
    var labBestEver: Option<real>
    var agents: seq<string>
    var agentAcc: map<string, AgentAcc>
    var prompts: seq<nat>
    var promptAcc: map<nat, PromptAcc>

    constructor ()
      ensures Graded([]) && Credited([])
    {
      frontier, labBestEver := None, None;
      agents, agentAcc := [], map[];
      prompts, promptAcc := [], map[];
    }

    /** The agents are what the definitions say of the runs so far. */
    ghost predicate AgentsGraded(runs: seq<Run>)
      reads this`agents, this`agentAcc
    {
      && agents == Agents(runs)
      && (forall a :: a in agentAcc <==> a in agents)
      && (forall a :: a in agentAcc ==> agentAcc[a] == AgentSpec(runs, a))
    }

    /** So is the frontier. */
    ghost predicate Graded(runs: seq<Run>)
      reads this`frontier, this`agents, this`agentAcc
    {
      frontier == Best(runs) && AgentsGraded(runs)
    }

    /** The running best and the prompts are what the definitions say of the uses so far. */
    ghost predicate Credited(uses: seq<Use>)
      reads this`labBestEver, this`prompts, this`promptAcc
    {
      && labBestEver == MaxOf(UseScores(uses))
      && prompts == Prompts(uses)
      && (forall p :: p in promptAcc <==> p in prompts)
      && (forall p :: p in promptAcc ==> promptAcc[p] == PromptSpec(uses, p))
    }

    method BestOf(cands: seq<Candidate>) returns (best: real)
      requires cands != []
      ensures MaxOf(ScoresOf(cands)) == Some(best)
    {
      best := cands[0].score;
      assert ScoresOf(cands[..1]) == [best];
      for i := 1 to |cands|
        invariant MaxOf(ScoresOf(cands[..i])) == Some(best)
      {
        assert ScoresOf(cands[..i + 1])[..i] == ScoresOf(cands[..i]);
        if !(best >= cands[i].score) {
          best := cands[i].score;
        }
      }
      assert cands[..|cands|] == cands;
    }

    /** The agent's share of one scored run. */
    method GradeAgent(run: Run, runBest: real, ghost earlier: seq<Run>)
      requires Graded(earlier) && run.cands != [] && MaxOf(ScoresOf(run.cands)) == Some(runBest)
      modifies this`agents, this`agentAcc
      ensures AgentsGraded(earlier + [run])
    {
      hide AgentSpec, Agents, CostsOf, ScoresOf, MaxOf, AllScores, AgentFrom;
      var runDelta := if frontier.None? then None else Some(runBest - frontier.value);
      var isNewBest := frontier.None? || runBest > frontier.value;
      var agent := AgentFrom(run.steps, 0);
      AgentStep(earlier, run);
      if agent !in agentAcc {
        agents := agents + [agent];
        NewAgent(earlier, agent);
      }
      var acc := if agent in agentAcc then agentAcc[agent] else NO_AGENT_ACC;
      acc := acc.(runs := acc.runs + 1, scores := acc.scores + ScoresOf(run.cands), costs := acc.costs + CostsOf(run.cands));
      if runDelta.Some? {
        acc := acc.(deltas := acc.deltas + [runDelta.value]);
      }
      if isNewBest {
        acc := acc.(newBest := acc.newBest + 1);
      }
      acc := acc.(last := run.createdAt);
      agentAcc := agentAcc[agent := acc];
    }

    /** One attributed candidate. */
    method Credit(use: Use, ghost uses: seq<Use>)
      requires Credited(uses)
      modifies this`labBestEver, this`prompts, this`promptAcc
      ensures Credited(uses + [use])
    {
      hide MaxOf, UseScores, Prompts, PromptSpec;
      var pid := use.prompt;
      UseStep(uses, use);
      if pid !in promptAcc {
        prompts := prompts + [pid];
        NewPrompt(uses, pid);
      }
      var acc := if pid in promptAcc then promptAcc[pid] else NO_PROMPT_ACC;
      acc := acc.(uses := acc.uses + 1, scores := acc.scores + [use.score]);
      if use.cost.Some? {
        acc := acc.(costs := acc.costs + [use.cost.value]);
      }
      if labBestEver.None? || use.score > labBestEver.value {
        acc := acc.(newBest := acc.newBest + 1);
      }
      if use.iteration == 0 {
        if use.frontier.Some? {
          acc := acc.(cold := acc.cold + [use.score - use.frontier.value]);
        }
      } else if use.iter0.Some? {
        acc := acc.(iter := acc.iter + [use.score - use.iter0.value]);
      }
      promptAcc := promptAcc[pid := acc];
      labBestEver := if labBestEver.Some? && labBestEver.value >= use.score then labBestEver else Some(use.score);
    }

    /** One run of the loop. */
    method GradeRun(run: Run, ghost earlier: seq<Run>)
      requires Graded(earlier) && Credited(Uses(earlier))
      modifies this
      ensures Graded(earlier + [run]) && Credited(Uses(earlier + [run]))
    {
      hide AgentSpec, Agents, MaxOf, ScoresOf, AllScores, Best, Uses, UsesIn, PromptAt, Iteration0, AgentFrom, Credited;
      RunStep(earlier, run);
      if run.cands == [] {
        return;
      }
      var runBest := BestOf(run.cands);
      GradeAgent(run, runBest, earlier);
      CreditAll(run, earlier);
      frontier := if frontier.Some? && frontier.value >= runBest then frontier else Some(runBest);
    }

    /** The attributed candidates of one scored run. */
    method CreditAll(run: Run, ghost earlier: seq<Run>)
      requires frontier == Best(earlier) && Credited(Uses(earlier))
      modifies this`labBestEver, this`prompts, this`promptAcc
      ensures Credited(Uses(earlier) + UsesIn(earlier, run, |run.cands|))
    {
      hide Credited, Best, Uses, UsesIn, PromptAt, Iteration0;
      var iter0 := Iteration0(run.cands, 0);
      NoUses(earlier, run);
      for i := 0 to |run.cands|
        invariant Credited(Uses(earlier) + UsesIn(earlier, run, i))
      {
        var c := run.cands[i];
        var prompt := PromptAt(run.steps, c.iteration);
        OneMoreUse(earlier, run, i);
        if prompt.Some? {
          Credit(Use(prompt.value, c.iteration, c.score, c.cost, frontier, iter0),
                 Uses(earlier) + UsesIn(earlier, run, i));
        }
      }
    }

    /** The whole pass over a lab's runs, oldest first. */
    method GradeAll(runs: seq<Run>)
      requires Graded([]) && Credited([])
      modifies this
      ensures Graded(runs) && Credited(Uses(runs))
    {
      hide Graded, Credited;
      assert Uses([]) == [];
      for i := 0 to |runs|
        invariant Graded(runs[..i]) && Credited(Uses(runs[..i]))
      {
        assert runs[..i + 1] == runs[..i] + [runs[i]];
        GradeRun(runs[i], runs[..i]);
      }
      assert runs[..|runs|] == runs;
    }
  }

  lemma AgentStep(earlier: seq<Run>, run: Run)
    requires run.cands != []
    ensures forall a ::
      (AgentSpec(earlier + [run], a) ==
       if AgentFrom(run.steps, 0) == a then WithRun(AgentSpec(earlier, a), earlier, run) else AgentSpec(earlier, a))
    ensures var agent := AgentFrom(run.steps, 0);
      Agents(earlier + [run]) == if agent in Agents(earlier) then Agents(earlier) else Agents(earlier) + [agent]
  {
    assert (earlier + [run])[..|earlier|] == earlier;
  }

  lemma {:induction false} NewAgent(runs: seq<Run>, agent: string)
    requires agent !in Agents(runs)
    ensures AgentSpec(runs, agent) == NO_AGENT_ACC
  {
    if runs != [] {
      NewAgent(runs[..|runs| - 1], agent);
    }
  }

  lemma UseStep(uses: seq<Use>, use: Use)
    ensures forall p ::
      (PromptSpec(uses + [use], p) ==
       if use.prompt == p then WithUse(PromptSpec(uses, p), uses, use) else PromptSpec(uses, p))
    ensures Prompts(uses + [use]) == if use.prompt in Prompts(uses) then Prompts(uses) else Prompts(uses) + [use.prompt]
    ensures var m := MaxOf(UseScores(uses));
      MaxOf(UseScores(uses + [use])) == if m.Some? && m.value >= use.score then m else Some(use.score)
  {
    assert (uses + [use])[..|uses|] == uses;
    assert UseScores(uses + [use]) == UseScores(uses) + [use.score];
    assert (UseScores(uses) + [use.score])[..|uses|] == UseScores(uses);
  }

  lemma {:induction false} NewPrompt(uses: seq<Use>, prompt: nat)
    requires prompt !in Prompts(uses)
    ensures PromptSpec(uses, prompt) == NO_PROMPT_ACC
  {
    if uses != [] {
      NewPrompt(uses[..|uses| - 1], prompt);
    }
  }

  lemma NoUses(earlier: seq<Run>, run: Run)
    ensures Uses(earlier) + UsesIn(earlier, run, 0) == Uses(earlier)
  {}

  lemma OneMoreUse(earlier: seq<Run>, run: Run, i: nat)
    requires i < |run.cands|
    ensures var c := run.cands[i];
      var prompt := PromptAt(run.steps, c.iteration);
      var before, now := Uses(earlier) + UsesIn(earlier, run, i), Uses(earlier) + UsesIn(earlier, run, i + 1);
      && (prompt.None? ==> now == before)
      && (prompt.Some? ==>
            now == before + [Use(prompt.value, c.iteration, c.score, c.cost, Best(earlier), Iteration0(run.cands, 0))])
  {}

  lemma RunStep(earlier: seq<Run>, run: Run)
    ensures Uses(earlier + [run]) == Uses(earlier) + UsesIn(earlier, run, |run.cands|)
    ensures AllScores(earlier + [run]) == AllScores(earlier) + ScoresOf(run.cands)
    ensures run.cands == [] ==> Uses(earlier + [run]) == Uses(earlier) && Best(earlier + [run]) == Best(earlier)
    ensures run.cands == [] ==> Agents(earlier + [run]) == Agents(earlier)
    ensures run.cands == [] ==> forall a :: AgentSpec(earlier + [run], a) == AgentSpec(earlier, a)
    ensures run.cands != [] ==> var best := MaxOf(ScoresOf(run.cands));
      && best.Some?
      && Best(earlier + [run]) ==
           if Best(earlier).Some? && Best(earlier).value >= best.value then Best(earlier) else best
  {
    assert (earlier + [run])[..|earlier|] == earlier;
    MaxOfConcat(AllScores(earlier), ScoresOf(run.cands));
    MaxOfIsMax(ScoresOf(run.cands));
  }
}
