/** What the accumulators of a grading pass hold, told from the runs: whose run it was, what its
    candidates scored, and what every earlier run had scored. */
module GradeFacts {
  import opened Options
  import opened Picking
  import opened Grades
  import opened GradeLaws

  // ----- one run ------------------------------------------------------------------------------------

  /** The first step that names an agent names this one, or none does. */
  predicate Names(steps: seq<Step>, agent: string) {
    if forall i :: 0 <= i < |steps| ==> steps[i].agent == "" then agent == "unknown"
    else exists i :: 0 <= i < |steps| && steps[i].agent == agent && agent != "" && forall j :: 0 <= j < i ==> steps[j].agent == ""
  }

  lemma {:induction false} FirstNamed(steps: seq<Step>, from: nat)
    requires from <= |steps| && forall j :: 0 <= j < from ==> steps[j].agent == ""
    ensures forall agent :: Names(steps, agent) <==> agent == AgentFrom(steps, from)
    decreases |steps| - from
  {
    if from < |steps| {
      if steps[from].agent == "" {
        FirstNamed(steps, from + 1);
      } else {
        forall agent | Names(steps, agent) ensures agent == steps[from].agent {
          var i :| 0 <= i < |steps| && steps[i].agent == agent && agent != "" && forall j :: 0 <= j < i ==> steps[j].agent == "";
        }
      }
    }
  }

  /** The highest score of the run. */
  predicate IsBest(run: Run, best: real) {
    && (exists j :: 0 <= j < |run.cands| && run.cands[j].score == best)
    && forall j :: 0 <= j < |run.cands| ==> run.cands[j].score <= best
  }

  predicate Scored(runs: seq<Run>, k: nat) {
    exists i :: 0 <= i < k && i < |runs| && runs[i].cands != []
  }

  /** The highest score of all runs before run `k`. */
  predicate IsFrontier(runs: seq<Run>, k: nat, frontier: real) {
    && k <= |runs|
    && (exists i :: 0 <= i < k && IsBest(runs[i], frontier))
    && forall i, j :: 0 <= i < k && 0 <= j < |runs[i].cands| ==> runs[i].cands[j].score <= frontier
  }

  lemma BestIs(run: Run)
    requires run.cands != []
    ensures MaxOf(ScoresOf(run.cands)).Some? && IsBest(run, MaxOf(ScoresOf(run.cands)).value)
  {
    hide MaxOf;
    var scores := ScoresOf(run.cands);
    MaxOfIsMax(scores);
    assert forall j :: 0 <= j < |scores| ==> scores[j] in scores && scores[j] == run.cands[j].score;
  }

  lemma {:induction false} FrontierIs(runs: seq<Run>, k: nat)
    requires k <= |runs|
    ensures Best(runs[..k]).Some? <==> Scored(runs, k)
    ensures Best(runs[..k]).Some? ==> IsFrontier(runs, k, Best(runs[..k]).value)
  {
    hide MaxOf, AllScores, Uses, Agents, AgentSpec;
    if k == 0 {
      NothingScored();
    } else {
      var earlier, run := runs[..k - 1], runs[k - 1];
      FrontierIs(runs, k - 1);
      assert runs[..k] == earlier + [run];
      RunStep(earlier, run);
      ScoredMore(runs, k - 1);
      if run.cands != [] {
        BestIs(run);
        FrontierMore(runs, k - 1, Best(earlier), MaxOf(ScoresOf(run.cands)).value);
      } else if Best(earlier).Some? {
        FrontierSame(runs, k - 1, Best(earlier).value);
      }
    }
  }

  lemma NothingScored()
    ensures Best([]) == None
  {}

  lemma ScoredMore(runs: seq<Run>, k: nat)
    requires k < |runs|
    ensures Scored(runs, k + 1) <==> Scored(runs, k) || runs[k].cands != []
  {}

  lemma FrontierMore(runs: seq<Run>, k: nat, frontier: Option<real>, best: real)
    requires k < |runs| && IsBest(runs[k], best)
    requires if frontier.Some? then IsFrontier(runs, k, frontier.value) else !Scored(runs, k)
    ensures IsFrontier(runs, k + 1, if frontier.Some? && frontier.value >= best then frontier.value else best)
  {
    var top := if frontier.Some? && frontier.value >= best then frontier.value else best;
    if top != best {
      var i :| 0 <= i < k && IsBest(runs[i], top);
      assert IsBest(runs[i], top);
    }
    forall i, j | 0 <= i < k + 1 && 0 <= j < |runs[i].cands| ensures runs[i].cands[j].score <= top {
      assert i < k ==> runs[i].cands != [];
    }
  }

  lemma FrontierSame(runs: seq<Run>, k: nat, frontier: real)
    requires k < |runs| && IsFrontier(runs, k, frontier) && runs[k].cands == []
    ensures IsFrontier(runs, k + 1, frontier)
  {}

  // ----- what an agent is graded on -------------------------------------------------------------------

  ghost function ScoredBy(runs: seq<Run>, agent: string): nat -> bool {
    (k: nat) => k < |runs| && runs[k].cands != [] && Names(runs[k].steps, agent)
  }

  /** Not the first scored run of the lab. */
  ghost function ComparedBy(runs: seq<Run>, agent: string): nat -> bool {
    (k: nat) => ScoredBy(runs, agent)(k) && Scored(runs, k)
  }

  /** Above everything before. */
  ghost predicate Tops(runs: seq<Run>, k: nat) {
    k < |runs| && exists best :: IsBest(runs[k], best) && forall frontier :: IsFrontier(runs, k, frontier) ==> best > frontier
  }

  ghost function ToppedBy(runs: seq<Run>, agent: string): nat -> bool {
    (k: nat) => ScoredBy(runs, agent)(k) && Tops(runs, k)
  }

  /** How far run `k` moved the lab: its best less the best of all runs before it. */
  ghost predicate Moves(runs: seq<Run>, k: nat, delta: real) {
    k < |runs| && exists best, frontier :: IsBest(runs[k], best) && IsFrontier(runs, k, frontier) && delta == best - frontier
  }

  /** The scores of the listed runs' candidates, one run after the other. */
  function ScoresThrough(runs: seq<Run>, at: seq<nat>): seq<real>
    requires forall i :: 0 <= i < |at| ==> at[i] < |runs|
  {
    if at == [] then []
    else
      var cands := runs[at[|at| - 1]].cands;
      ScoresThrough(runs, at[..|at| - 1]) + seq(|cands|, j requires 0 <= j < |cands| => cands[j].score)
  }

  function CostsThrough(runs: seq<Run>, at: seq<nat>): seq<real>
    requires forall i :: 0 <= i < |at| ==> at[i] < |runs|
  {
    if at == [] then [] else CostsThrough(runs, at[..|at| - 1]) + CostsOf(runs[at[|at| - 1]].cands)
  }

  /** The accumulator holds what the listed runs amount to. */
  ghost predicate AgentHolds(runs: seq<Run>, n: nat, agent: string, acc: AgentAcc, mine: seq<nat>, compared: seq<nat>, tops: seq<nat>) {
    && Picks(mine, n, ScoredBy(runs, agent)) && (forall i :: 0 <= i < |mine| ==> mine[i] < |runs|)
    && Picks(compared, n, ComparedBy(runs, agent)) && Picks(tops, n, ToppedBy(runs, agent))
    && acc.runs == |mine| && acc.newBest == |tops|
    && acc.scores == ScoresThrough(runs, mine) && acc.costs == CostsThrough(runs, mine)
    && |acc.deltas| == |compared| && (forall i :: 0 <= i < |compared| ==> Moves(runs, compared[i], acc.deltas[i]))
    && acc.last == (if mine == [] then 0 else runs[mine[|mine| - 1]].createdAt)
  }

  lemma ThroughMore(runs: seq<Run>, at: seq<nat>, k: nat)
    requires k < |runs| && forall i :: 0 <= i < |at| ==> at[i] < |runs|
    ensures ScoresThrough(runs, at + [k]) == ScoresThrough(runs, at) + ScoresOf(runs[k].cands)
    ensures CostsThrough(runs, at + [k]) == CostsThrough(runs, at) + CostsOf(runs[k].cands)
  {
    assert (at + [k])[..|at|] == at;
    assert ScoresOf(runs[k].cands) == seq(|runs[k].cands|, j requires 0 <= j < |runs[k].cands| => runs[k].cands[j].score);
  }

  lemma TopsIff(runs: seq<Run>, k: nat, frontier: Option<real>, best: real)
    requires k < |runs| && IsBest(runs[k], best)
    requires if frontier.Some? then IsFrontier(runs, k, frontier.value) else !Scored(runs, k)
    ensures Tops(runs, k) <==> frontier.None? || best > frontier.value
    ensures frontier.Some? ==> Moves(runs, k, best - frontier.value)
  {
    forall other | IsFrontier(runs, k, other) ensures frontier == Some(other) {
      var i :| 0 <= i < k && IsBest(runs[i], other);
      assert runs[i].cands != [];
      var j :| 0 <= j < k && IsBest(runs[j], frontier.value);
    }
    forall other | IsBest(runs[k], other) ensures other == best {}
  }

  lemma ByAt(runs: seq<Run>, agent: string, k: nat)
    ensures ScoredBy(runs, agent)(k) ==> k < |runs| && runs[k].cands != []
    ensures ComparedBy(runs, agent)(k) <==> ScoredBy(runs, agent)(k) && Scored(runs, k)
    ensures ToppedBy(runs, agent)(k) <==> ScoredBy(runs, agent)(k) && Tops(runs, k)
  {}

  /** What one run adds to its agent. */
  lemma HoldsMore(runs: seq<Run>, k: nat, agent: string, acc: AgentAcc, mine: seq<nat>, compared: seq<nat>, tops: seq<nat>)
    returns (mine': seq<nat>, compared': seq<nat>, tops': seq<nat>)
    requires k < |runs| && AgentHolds(runs, k, agent, acc, mine, compared, tops) && ScoredBy(runs, agent)(k)
    ensures AgentHolds(runs, k + 1, agent, WithRun(acc, runs[..k], runs[k]), mine', compared', tops')
  {
    hide Picks, Tops, Moves, IsBest, IsFrontier, Scored, Best, MaxOf, Names, ScoresThrough, CostsThrough, ScoresOf, CostsOf,
      ScoredBy, ComparedBy, ToppedBy;
    ByAt(runs, agent, k);
    var best := MaxOf(ScoresOf(runs[k].cands));
    BestIs(runs[k]);
    FrontierIs(runs, k);
    TopsIff(runs, k, Best(runs[..k]), best.value);
    ThroughMore(runs, mine, k);
    PicksMore(mine, k, ScoredBy(runs, agent));
    PicksMore(compared, k, ComparedBy(runs, agent));
    PicksMore(tops, k, ToppedBy(runs, agent));
    mine' := mine + [k];
    compared' := if Scored(runs, k) then compared + [k] else compared;
    tops' := if Tops(runs, k) then tops + [k] else tops;
  }

  lemma HoldsSame(runs: seq<Run>, k: nat, agent: string, acc: AgentAcc, mine: seq<nat>, compared: seq<nat>, tops: seq<nat>)
    requires k < |runs| && AgentHolds(runs, k, agent, acc, mine, compared, tops) && !ScoredBy(runs, agent)(k)
    ensures AgentHolds(runs, k + 1, agent, acc, mine, compared, tops)
  {
    hide Picks, Tops, Moves, Names, Scored, ScoresThrough, CostsThrough;
    PicksMore(mine, k, ScoredBy(runs, agent));
    PicksMore(compared, k, ComparedBy(runs, agent));
    PicksMore(tops, k, ToppedBy(runs, agent));
  }

  lemma {:induction false} AgentUpTo(runs: seq<Run>, n: nat, agent: string)
    returns (mine: seq<nat>, compared: seq<nat>, tops: seq<nat>)
    requires n <= |runs|
    ensures AgentHolds(runs, n, agent, AgentSpec(runs[..n], agent), mine, compared, tops)
  {
    hide AgentHolds, WithRun, AgentFrom, Names;
    if n == 0 {
      mine, compared, tops := [], [], [];
      HoldsNothing(runs, agent);
    } else {
      mine, compared, tops := AgentUpTo(runs, n - 1, agent);
      assert runs[..n][..n - 1] == runs[..n - 1];
      FirstNamed(runs[n - 1].steps, 0);
      if ScoredBy(runs, agent)(n - 1) {
        mine, compared, tops := HoldsMore(runs, n - 1, agent, AgentSpec(runs[..n - 1], agent), mine, compared, tops);
      } else {
        HoldsSame(runs, n - 1, agent, AgentSpec(runs[..n - 1], agent), mine, compared, tops);
      }
    }
  }

  lemma HoldsNothing(runs: seq<Run>, agent: string)
    ensures AgentHolds(runs, 0, agent, NO_AGENT_ACC, [], [], [])
  {}

  /** An agent is graded on exactly its scored runs, in order: their scores and costs, the last one's time,
      how many of them beat every earlier score of the lab, and for each but the lab's first scored run its
      best score less the best of all earlier runs, whatever the sign. */
  lemma AgentTells(runs: seq<Run>, agent: string)
    returns (mine: seq<nat>, compared: seq<nat>, tops: seq<nat>)
    ensures AgentHolds(runs, |runs|, agent, AgentSpec(runs, agent), mine, compared, tops)
  {
    mine, compared, tops := AgentUpTo(runs, |runs|, agent);
    assert runs[..|runs|] == runs;
  }

  /** The agents are those with a scored run, in order of their first. */
  ghost function FirstRunOf(runs: seq<Run>): nat -> bool {
    (k: nat) => k < |runs| && runs[k].cands != [] &&
      forall j :: 0 <= j < k && runs[j].cands != [] ==> !SameAgent(runs[j].steps, runs[k].steps)
  }

  ghost predicate SameAgent(a: seq<Step>, b: seq<Step>) {
    exists agent :: Names(a, agent) && Names(b, agent)
  }

  ghost predicate AgentsListed(runs: seq<Run>, n: nat, agents: seq<string>, firsts: seq<nat>) {
    && Picks(firsts, n, FirstRunOf(runs)) && |firsts| == |agents|
    && forall i :: 0 <= i < |firsts| ==> firsts[i] < |runs| && Names(runs[firsts[i]].steps, agents[i])
  }

  lemma SameAgentIff(a: seq<Step>, b: seq<Step>)
    ensures SameAgent(a, b) <==> AgentFrom(a, 0) == AgentFrom(b, 0)
    ensures Names(a, AgentFrom(a, 0)) && Names(b, AgentFrom(b, 0))
  {
    hide Names, AgentFrom;
    FirstNamed(a, 0);
    FirstNamed(b, 0);
    assert Names(a, AgentFrom(a, 0)) && Names(b, AgentFrom(b, 0));
  }

  lemma {:induction false} AgentKnown(runs: seq<Run>, agent: string)
    ensures agent in Agents(runs) <==> exists j :: 0 <= j < |runs| && runs[j].cands != [] && AgentFrom(runs[j].steps, 0) == agent
  {
    if runs != [] {
      AgentKnown(runs[..|runs| - 1], agent);
    }
  }

  lemma ListedMore(runs: seq<Run>, n: nat, agents: seq<string>, firsts: seq<nat>, agent: string)
    requires n < |runs| && AgentsListed(runs, n, agents, firsts) && Names(runs[n].steps, agent)
    ensures if FirstRunOf(runs)(n) then AgentsListed(runs, n + 1, agents + [agent], firsts + [n])
            else AgentsListed(runs, n + 1, agents, firsts)
  {
    hide Picks, Names, FirstRunOf;
    PicksMore(firsts, n, FirstRunOf(runs));
  }

  lemma {:induction false} AgentsTell(runs: seq<Run>, n: nat) returns (firsts: seq<nat>)
    requires n <= |runs|
    ensures AgentsListed(runs, n, Agents(runs[..n]), firsts)
  {
    firsts := [];
    if n == 0 {
      PicksNone(FirstRunOf(runs));
    } else {
      hide AgentsListed, Names, AgentFrom, FirstRunOf;
      firsts := AgentsTell(runs, n - 1);
      assert runs[..n][..n - 1] == runs[..n - 1];
      FirstRunIff(runs, n - 1);
      SameAgentIff(runs[n - 1].steps, runs[n - 1].steps);
      ListedMore(runs, n - 1, Agents(runs[..n - 1]), firsts, AgentFrom(runs[n - 1].steps, 0));
      firsts := if FirstRunOf(runs)(n - 1) then firsts + [n - 1] else firsts;
    }
  }

  lemma FirstRunIff(runs: seq<Run>, k: nat)
    requires k < |runs|
    ensures FirstRunOf(runs)(k) <==> runs[k].cands != [] && AgentFrom(runs[k].steps, 0) !in Agents(runs[..k])
  {
    hide Names, AgentFrom, SameAgent;
    AgentKnown(runs[..k], AgentFrom(runs[k].steps, 0));
    forall j | 0 <= j < k ensures SameAgent(runs[j].steps, runs[k].steps) <==> AgentFrom(runs[j].steps, 0) == AgentFrom(runs[k].steps, 0) {
      SameAgentIff(runs[j].steps, runs[k].steps);
    }
  }

  /** The costs that are known, in order. */
  ghost function Priced(cands: seq<Candidate>): nat -> bool {
    (j: nat) => j < |cands| && cands[j].cost.Some?
  }

  ghost predicate CostsHold(cands: seq<Candidate>, n: nat, costs: seq<real>, at: seq<nat>) {
    && Picks(at, n, Priced(cands)) && |costs| == |at|
    && forall i :: 0 <= i < |at| ==> at[i] < |cands| && cands[at[i]].cost == Some(costs[i])
  }

  lemma CostsMore(cands: seq<Candidate>, n: nat, costs: seq<real>, at: seq<nat>)
    requires n < |cands| && CostsHold(cands, n, costs, at)
    ensures if cands[n].cost.Some? then CostsHold(cands, n + 1, costs + [cands[n].cost.value], at + [n])
            else CostsHold(cands, n + 1, costs, at)
  {
    hide Picks;
    PicksMore(at, n, Priced(cands));
  }

  lemma {:induction false} CostsTell(cands: seq<Candidate>, n: nat) returns (at: seq<nat>)
    requires n <= |cands|
    ensures CostsHold(cands, n, CostsOf(cands[..n]), at)
  {
    at := [];
    if n == 0 {
      PicksNone(Priced(cands));
    } else {
      hide CostsHold;
      at := CostsTell(cands, n - 1);
      assert cands[..n][..n - 1] == cands[..n - 1];
      CostsMore(cands, n - 1, CostsOf(cands[..n - 1]), at);
      at := if cands[n - 1].cost.Some? then at + [n - 1] else at;
    }
  }

  // ----- what a prompt is credited with --------------------------------------------------------------------

  /** The last step of the iteration that used a prompt used this one. */
  predicate UsedAt(steps: seq<Step>, iteration: nat, prompt: nat) {
    exists i :: 0 <= i < |steps| && steps[i].iteration == iteration && steps[i].prompt == Some(prompt) &&
      forall j :: i < j < |steps| && steps[j].iteration == iteration ==> steps[j].prompt.None?
  }

  lemma {:induction false} PromptAtIs(steps: seq<Step>, iteration: nat)
    ensures forall prompt: nat :: UsedAt(steps, iteration, prompt) <==> PromptAt(steps, iteration) == Some(prompt)
  {
    if steps != [] {
      var n := |steps| - 1;
      var init := steps[..n];
      PromptAtIs(init, iteration);
      forall prompt: nat ensures UsedAt(steps, iteration, prompt) <==> PromptAt(steps, iteration) == Some(prompt) {
        LastUse(steps, iteration, prompt);
      }
    }
  }

  lemma LastUse(steps: seq<Step>, iteration: nat, prompt: nat)
    requires steps != []
    ensures var n := |steps| - 1;
      UsedAt(steps, iteration, prompt) <==>
        if steps[n].iteration == iteration && steps[n].prompt.Some? then steps[n].prompt == Some(prompt)
        else UsedAt(steps[..n], iteration, prompt)
  {
    var n := |steps| - 1;
    if UsedAt(steps, iteration, prompt) {
      var i :| 0 <= i < |steps| && steps[i].iteration == iteration && steps[i].prompt == Some(prompt) &&
        forall j :: i < j < |steps| && steps[j].iteration == iteration ==> steps[j].prompt.None?;
      if i < n {
        assert steps[..n][i] == steps[i];
      }
    }
    if steps[n].iteration == iteration && steps[n].prompt == Some(prompt) {
      assert UsedAt(steps, iteration, prompt);
    }
    if UsedAt(steps[..n], iteration, prompt) && !(steps[n].iteration == iteration && steps[n].prompt.Some?) {
      var i :| 0 <= i < n && steps[..n][i].iteration == iteration && steps[..n][i].prompt == Some(prompt) &&
        forall j :: i < j < n && steps[..n][j].iteration == iteration ==> steps[..n][j].prompt.None?;
      forall j | i < j < |steps| && steps[j].iteration == iteration ensures steps[j].prompt.None? {
        assert j < n ==> steps[..n][j] == steps[j];
      }
      assert steps[i].prompt == Some(prompt);
    }
  }

  /** The score of the run's first candidate of iteration 0. */
  predicate IsIter0(cands: seq<Candidate>, score: real) {
    exists i :: 0 <= i < |cands| && cands[i].iteration == 0 && cands[i].score == score && forall j :: 0 <= j < i ==> cands[j].iteration != 0
  }

  lemma {:induction false} Iteration0Is(cands: seq<Candidate>, from: nat)
    requires from <= |cands| && forall j :: 0 <= j < from ==> cands[j].iteration != 0
    ensures forall score :: IsIter0(cands, score) <==> Iteration0(cands, from) == Some(score)
    decreases |cands| - from
  {
    if from < |cands| && cands[from].iteration != 0 {
      Iteration0Is(cands, from + 1);
    } else if from < |cands| {
      forall score | IsIter0(cands, score) ensures score == cands[from].score {
        var i :| 0 <= i < |cands| && cands[i].iteration == 0 && cands[i].score == score && forall j :: 0 <= j < i ==> cands[j].iteration != 0;
      }
    }
  }

  /** The use is of candidate `j` of run `k`, with what it is compared with. */
  ghost predicate UseOf(runs: seq<Run>, k: nat, j: nat, use: Use) {
    && k < |runs| && j < |runs[k].cands|
    && var c := runs[k].cands[j];
    && UsedAt(runs[k].steps, c.iteration, use.prompt)
    && use.iteration == c.iteration && use.score == c.score && use.cost == c.cost
    && (if use.frontier.Some? then IsFrontier(runs, k, use.frontier.value) else !Scored(runs, k))
    && forall score :: IsIter0(runs[k].cands, score) <==> use.iter0 == Some(score)
  }

  ghost function Credits(run: Run): nat -> bool {
    (j: nat) => j < |run.cands| && exists prompt: nat :: UsedAt(run.steps, run.cands[j].iteration, prompt)
  }

  /** The uses of one run are its attributed candidates, in order. */
  ghost predicate UsesHold(runs: seq<Run>, k: nat, n: nat, uses: seq<Use>, at: seq<nat>) {
    && k < |runs| && Picks(at, n, Credits(runs[k])) && |uses| == |at|
    && forall i :: 0 <= i < |at| ==> UseOf(runs, k, at[i], uses[i])
  }

  lemma CreditOf(runs: seq<Run>, k: nat, j: nat)
    requires k < |runs| && j < |runs[k].cands|
    ensures var c := runs[k].cands[j];
      var prompt := PromptAt(runs[k].steps, c.iteration);
      prompt.Some? ==>
        UseOf(runs, k, j, Use(prompt.value, c.iteration, c.score, c.cost, Best(runs[..k]), Iteration0(runs[k].cands, 0)))
  {
    hide PromptAt, Best, Iteration0, UsedAt, IsFrontier, Scored, IsIter0;
    PromptAtIs(runs[k].steps, runs[k].cands[j].iteration);
    FrontierIs(runs, k);
    Iteration0Is(runs[k].cands, 0);
  }

  lemma UsesMore(runs: seq<Run>, k: nat, n: nat, uses: seq<Use>, at: seq<nat>, use: Option<Use>)
    requires k < |runs| && n < |runs[k].cands| && UsesHold(runs, k, n, uses, at)
    requires use.Some? <==> Credits(runs[k])(n)
    requires use.Some? ==> UseOf(runs, k, n, use.value)
    ensures if use.Some? then UsesHold(runs, k, n + 1, uses + [use.value], at + [n]) else UsesHold(runs, k, n + 1, uses, at)
  {
    hide Picks, UseOf, Credits;
    PicksMore(at, n, Credits(runs[k]));
  }

  lemma {:induction false} UsesInTell(runs: seq<Run>, k: nat, n: nat) returns (at: seq<nat>)
    requires k < |runs| && n <= |runs[k].cands|
    ensures UsesHold(runs, k, n, UsesIn(runs[..k], runs[k], n), at)
  {
    at := [];
    if n == 0 {
      PicksNone(Credits(runs[k]));
    } else {
      hide UsesHold, UseOf, PromptAt, Best, Iteration0, UsedAt;
      at := UsesInTell(runs, k, n - 1);
      var c := runs[k].cands[n - 1];
      var prompt := PromptAt(runs[k].steps, c.iteration);
      PromptAtIs(runs[k].steps, c.iteration);
      CreditOf(runs, k, n - 1);
      var use := if prompt.None? then None
                 else Some(Use(prompt.value, c.iteration, c.score, c.cost, Best(runs[..k]), Iteration0(runs[k].cands, 0)));
      assert prompt.Some? ==> UsedAt(runs[k].steps, c.iteration, prompt.value);
      UsesMore(runs, k, n - 1, UsesIn(runs[..k], runs[k], n - 1), at, use);
      at := if use.Some? then at + [n - 1] else at;
    }
  }

  ghost predicate PartOf(runs: seq<Run>, k: nat, part: seq<Use>) {
    k < |runs| && exists at :: UsesHold(runs, k, |runs[k].cands|, part, at)
  }

  /** The lab's uses are those of its runs, one run after the other, each run's in order. */
  lemma {:induction false} UsesTell(runs: seq<Run>, n: nat) returns (parts: seq<seq<Use>>)
    requires n <= |runs|
    ensures |parts| == n && Uses(runs[..n]) == Joined(parts)
    ensures forall k :: 0 <= k < n ==> PartOf(runs, k, parts[k])
  {
    hide UsesHold, UsesIn;
    parts := [];
    if n > 0 {
      parts := UsesTell(runs, n - 1);
      assert runs[..n][..n - 1] == runs[..n - 1];
      var part := UsesIn(runs[..n - 1], runs[n - 1], |runs[n - 1].cands|);
      var at := UsesInTell(runs, n - 1, |runs[n - 1].cands|);
      assert PartOf(runs, n - 1, part);
      assert (parts + [part])[..n - 1] == parts;
      parts := parts + [part];
    }
  }

  function Joined(parts: seq<seq<Use>>): seq<Use> {
    if parts == [] then [] else Joined(parts[..|parts| - 1]) + parts[|parts| - 1]
  }

  ghost function UseBy(uses: seq<Use>, prompt: nat): nat -> bool {
    (i: nat) => i < |uses| && uses[i].prompt == prompt
  }

  ghost function PricedUse(uses: seq<Use>, prompt: nat): nat -> bool {
    (i: nat) => i < |uses| && uses[i].prompt == prompt && uses[i].cost.Some?
  }

  /** Above every use before it. */
  ghost function RecordUse(uses: seq<Use>, prompt: nat): nat -> bool {
    (i: nat) => i < |uses| && uses[i].prompt == prompt && forall j :: 0 <= j < i ==> uses[j].score < uses[i].score
  }

  ghost function ColdUse(uses: seq<Use>, prompt: nat): nat -> bool {
    (i: nat) => i < |uses| && uses[i].prompt == prompt && uses[i].iteration == 0 && uses[i].frontier.Some?
  }

  ghost function LiftUse(uses: seq<Use>, prompt: nat): nat -> bool {
    (i: nat) => i < |uses| && uses[i].prompt == prompt && uses[i].iteration > 0 && uses[i].iter0.Some?
  }

  /** Which uses each part of a prompt's accumulator is made of. */
  datatype PromptParts = PromptParts(mine: seq<nat>, priced: seq<nat>, records: seq<nat>, cold: seq<nat>, lift: seq<nat>)

  ghost predicate PromptPicked(uses: seq<Use>, n: nat, prompt: nat, parts: PromptParts) {
    && Picks(parts.mine, n, UseBy(uses, prompt)) && Picks(parts.priced, n, PricedUse(uses, prompt))
    && Picks(parts.records, n, RecordUse(uses, prompt))
    && Picks(parts.cold, n, ColdUse(uses, prompt)) && Picks(parts.lift, n, LiftUse(uses, prompt))
  }

  /** How far the use's score is from the lab's best before its run. */
  predicate BeyondFrontier(use: Use, gap: real) {
    use.frontier.Some? && gap == use.score - use.frontier.value
  }

  /** How far it is from the run's own first attempt. */
  predicate BeyondStart(use: Use, gap: real) {
    use.iter0.Some? && gap == use.score - use.iter0.value
  }

  /** A prompt's accumulator holds its uses: their scores and known costs, how many were records, and the
      distance of each from what it is compared with. */
  ghost predicate PromptHolds(uses: seq<Use>, acc: PromptAcc, parts: PromptParts) {
    && acc.uses == |parts.mine| == |acc.scores| && acc.newBest == |parts.records|
    && (forall i :: 0 <= i < |parts.mine| ==> parts.mine[i] < |uses| && acc.scores[i] == uses[parts.mine[i]].score)
    && |acc.costs| == |parts.priced|
    && (forall i :: 0 <= i < |parts.priced| ==> parts.priced[i] < |uses| && uses[parts.priced[i]].cost == Some(acc.costs[i]))
    && |acc.cold| == |parts.cold|
    && (forall i :: 0 <= i < |parts.cold| ==> parts.cold[i] < |uses| && BeyondFrontier(uses[parts.cold[i]], acc.cold[i]))
    && |acc.iter| == |parts.lift|
    && (forall i :: 0 <= i < |parts.lift| ==> parts.lift[i] < |uses| && BeyondStart(uses[parts.lift[i]], acc.iter[i]))
  }

  function IfAt(at: seq<nat>, n: nat, here: bool): seq<nat> {
    if here then at + [n] else at
  }

  lemma RecordIff(uses: seq<Use>, k: nat)
    requires k < |uses|
    ensures IsRecord(uses[..k], uses[k]) <==> forall j :: 0 <= j < k ==> uses[j].score < uses[k].score
  {
    hide MaxOf;
    var scores := UseScores(uses[..k]);
    MaxOfIsMax(scores);
    assert forall j :: 0 <= j < k ==> scores[j] in scores && scores[j] == uses[j].score;
  }

  ghost function PartsMore(uses: seq<Use>, n: nat, prompt: nat, parts: PromptParts): PromptParts {
    PromptParts(IfAt(parts.mine, n, UseBy(uses, prompt)(n)), IfAt(parts.priced, n, PricedUse(uses, prompt)(n)),
                IfAt(parts.records, n, RecordUse(uses, prompt)(n)), IfAt(parts.cold, n, ColdUse(uses, prompt)(n)),
                IfAt(parts.lift, n, LiftUse(uses, prompt)(n)))
  }

  lemma PickedMore(uses: seq<Use>, n: nat, prompt: nat, parts: PromptParts)
    requires PromptPicked(uses, n, prompt, parts)
    ensures PromptPicked(uses, n + 1, prompt, PartsMore(uses, n, prompt, parts))
  {
    hide Picks, UseBy, PricedUse, RecordUse, ColdUse, LiftUse;
    PicksMore(parts.mine, n, UseBy(uses, prompt));
    PicksMore(parts.priced, n, PricedUse(uses, prompt));
    PicksMore(parts.records, n, RecordUse(uses, prompt));
    PicksMore(parts.cold, n, ColdUse(uses, prompt));
    PicksMore(parts.lift, n, LiftUse(uses, prompt));
  }

  lemma PromptMore(uses: seq<Use>, n: nat, prompt: nat, acc: PromptAcc, parts: PromptParts)
    requires n < |uses| && PromptHolds(uses, acc, parts)
    ensures PromptHolds(uses, if uses[n].prompt == prompt then WithUse(acc, uses[..n], uses[n]) else acc, PartsMore(uses, n, prompt, parts))
  {
    hide IsRecord;
    RecordIff(uses, n);
  }

  lemma {:induction false} PromptUpTo(uses: seq<Use>, n: nat, prompt: nat) returns (parts: PromptParts)
    requires n <= |uses|
    ensures PromptPicked(uses, n, prompt, parts) && PromptHolds(uses, PromptSpec(uses[..n], prompt), parts)
  {
    hide PromptPicked, PromptHolds, WithUse, PartsMore;
    if n == 0 {
      parts := PromptParts([], [], [], [], []);
      PromptNothing(uses, prompt);
    } else {
      parts := PromptUpTo(uses, n - 1, prompt);
      assert uses[..n][..n - 1] == uses[..n - 1];
      PickedMore(uses, n - 1, prompt, parts);
      PromptMore(uses, n - 1, prompt, PromptSpec(uses[..n - 1], prompt), parts);
      parts := PartsMore(uses, n - 1, prompt, parts);
    }
  }

  lemma PromptNothing(uses: seq<Use>, prompt: nat)
    ensures var parts := PromptParts([], [], [], [], []);
      PromptPicked(uses, 0, prompt, parts) && PromptHolds(uses, NO_PROMPT_ACC, parts)
  {}

  /** A prompt is graded on exactly its uses, in order. */
  lemma PromptTells(uses: seq<Use>, prompt: nat) returns (parts: PromptParts)
    ensures PromptPicked(uses, |uses|, prompt, parts) && PromptHolds(uses, PromptSpec(uses, prompt), parts)
  {
    parts := PromptUpTo(uses, |uses|, prompt);
    assert uses[..|uses|] == uses;
  }

  // ----- the numbers of a grade ------------------------------------------------------------------------------

  /** To the nearest hundredth; halfway, to the even one. */
  ghost predicate Rounded(x: real, r: real) {
    exists n: int :: RoundsTo(x, n) && r == n as real / 100.0
  }

  predicate RoundsTo(x: real, n: int) {
    && -0.5 <= x * 100.0 - n as real <= 0.5
    && (x * 100.0 - n as real == 0.5 || x * 100.0 - n as real == -0.5 ==> n % 2 == 0)
  }

  lemma Round2Rounds(x: real)
    ensures Rounded(x, Round2(x))
  {
    var n := (x * 100.0).Floor;
    var rest := x * 100.0 - n as real;
    assert RoundsTo(x, if rest < 0.5 || (rest == 0.5 && n % 2 == 0) then n else n + 1);
  }

  function Sum(s: seq<real>): real {
    if s == [] then 0.0 else s[0] + Sum(s[1..])
  }

  lemma {:induction false} SumSame(s: seq<real>)
    ensures Sum(s) == SumOf(s)
  {
    if |s| > 1 {
      var mid := s[1..|s| - 1];
      SumSame(s[1..]);
      SumSame(s[..|s| - 1]);
      SumSame(mid);
      assert s[1..][..|s| - 2] == mid && s[..|s| - 1][1..] == mid;
    } else if s != [] {
      assert s[1..] == [] && s[..0] == [];
    }
  }

  /** The rounded average, if there is anything to average. */
  ghost predicate Averages(s: seq<real>, avg: Option<real>) {
    if s == [] then avg == None else avg.Some? && Rounded(Sum(s) / |s| as real, avg.value)
  }

  /** The rounded maximum. */
  ghost predicate Peaks(s: seq<real>, peak: Option<real>) {
    if s == [] then peak == None
    else peak.Some? && exists top :: top in s && (forall x :: x in s ==> x <= top) && Rounded(top, peak.value)
  }

  lemma MeanAverages(s: seq<real>)
    ensures Averages(s, Mean(s))
  {
    hide Round2;
    SumSame(s);
    if s != [] {
      Round2Rounds(Sum(s) / |s| as real);
    }
  }

  lemma MaxPeaks(s: seq<real>)
    ensures Peaks(s, RoundedMax(s))
  {
    hide Round2, MaxOf;
    MaxOfIsMax(s);
    if s != [] {
      Round2Rounds(MaxOf(s).value);
    }
  }

  /** An agent's grade: how many runs and candidates, the averages of their scores, deltas and costs, the
      greatest delta, and how often a run was a new best. */
  lemma AgentGradeTells(agent: string, acc: AgentAcc)
    requires acc.runs > 0
    ensures var g := GradeOf(agent, acc);
      && g.agent == agent && g.runs == acc.runs && g.candidates == |acc.scores| && g.lastUsed == acc.last
      && Averages(acc.scores, g.avgScore) && Averages(acc.deltas, g.avgDelta) && Averages(acc.costs, g.avgCost)
      && Peaks(acc.deltas, g.bestDelta) && Rounded(acc.newBest as real / acc.runs as real, g.newBestRate)
  {
    hide Mean, RoundedMax, Round2;
    MeanAverages(acc.scores);
    MeanAverages(acc.deltas);
    MeanAverages(acc.costs);
    MaxPeaks(acc.deltas);
    Round2Rounds(acc.newBest as real / acc.runs as real);
  }

  /** A prompt's grade is over its cold starts and its lifts together, and says which of them it has. */
  lemma PromptGradeTells(id: nat, slug: string, version: nat, acc: PromptAcc)
    requires acc.uses > 0
    ensures var g := PromptGradeOf(id, slug, version, acc);
      && g.id == id && g.slug == slug && g.version == version && g.uses == acc.uses
      && (g.basis == Mixed <==> acc.cold != [] && acc.iter != [])
      && (g.basis == ColdStart <==> acc.cold != [] && acc.iter == [])
      && (g.basis == IterateLift <==> acc.cold == [] && acc.iter != [])
      && Averages(acc.scores, g.avgScore) && Averages(acc.cold + acc.iter, g.avgDelta) && Averages(acc.costs, g.avgCost)
      && Peaks(acc.cold + acc.iter, g.bestDelta) && Rounded(acc.newBest as real / acc.uses as real, g.newBestRate)
  {
    hide Mean, RoundedMax, Round2;
    MeanAverages(acc.scores);
    MeanAverages(acc.cold + acc.iter);
    MeanAverages(acc.costs);
    MaxPeaks(acc.cold + acc.iter);
    Round2Rounds(acc.newBest as real / acc.uses as real);
  }

  // ----- which prompts are graded -----------------------------------------------------------------------------

  ghost function FirstUseOf(uses: seq<Use>): nat -> bool {
    (k: nat) => k < |uses| && forall j :: 0 <= j < k ==> uses[j].prompt != uses[k].prompt
  }

  /** The prompts in order of their first use. */
  ghost predicate PromptsListed(uses: seq<Use>, n: nat, prompts: seq<nat>, firsts: seq<nat>) {
    && Picks(firsts, n, FirstUseOf(uses)) && |firsts| == |prompts|
    && forall i :: 0 <= i < |firsts| ==> firsts[i] < |uses| && uses[firsts[i]].prompt == prompts[i]
  }

  lemma {:induction false} PromptKnown(uses: seq<Use>, prompt: nat)
    ensures prompt in Prompts(uses) <==> exists j :: 0 <= j < |uses| && uses[j].prompt == prompt
  {
    if uses != [] {
      PromptKnown(uses[..|uses| - 1], prompt);
    }
  }

  lemma PromptsMore(uses: seq<Use>, n: nat, prompts: seq<nat>, firsts: seq<nat>)
    requires n < |uses| && PromptsListed(uses, n, prompts, firsts)
    ensures if FirstUseOf(uses)(n) then PromptsListed(uses, n + 1, prompts + [uses[n].prompt], firsts + [n])
            else PromptsListed(uses, n + 1, prompts, firsts)
  {
    hide Picks, FirstUseOf;
    PicksMore(firsts, n, FirstUseOf(uses));
  }

  lemma {:induction false} PromptsTell(uses: seq<Use>, n: nat) returns (firsts: seq<nat>)
    requires n <= |uses|
    ensures PromptsListed(uses, n, Prompts(uses[..n]), firsts)
  {
    firsts := [];
    if n == 0 {
      PicksNone(FirstUseOf(uses));
    } else {
      hide PromptsListed;
      firsts := PromptsTell(uses, n - 1);
      assert uses[..n][..n - 1] == uses[..n - 1];
      PromptKnown(uses[..n - 1], uses[n - 1].prompt);
      PromptsMore(uses, n - 1, Prompts(uses[..n - 1]), firsts);
      firsts := if FirstUseOf(uses)(n - 1) then firsts + [n - 1] else firsts;
    }
  }

  ghost function Registered(prompts: seq<nat>, known: map<nat, (string, nat)>): nat -> bool {
    (i: nat) => i < |prompts| && prompts[i] in known
  }

  /** One grade for every prompt that still has a row, under its slug and version. */
  ghost predicate GradesListed(uses: seq<Use>, prompts: seq<nat>, n: nat, known: map<nat, (string, nat)>, grades: seq<PromptGrade>, at: seq<nat>) {
    && Picks(at, n, Registered(prompts, known)) && |at| == |grades|
    && forall i :: 0 <= i < |at| ==> at[i] < |prompts| && GradeFor(uses, prompts[at[i]], known, grades[i])
  }

  predicate GradeFor(uses: seq<Use>, prompt: nat, known: map<nat, (string, nat)>, g: PromptGrade) {
    prompt in known && g == PromptGradeOf(prompt, known[prompt].0, known[prompt].1, PromptSpec(uses, prompt))
  }

  lemma GradesMore(uses: seq<Use>, prompts: seq<nat>, n: nat, known: map<nat, (string, nat)>, grades: seq<PromptGrade>, at: seq<nat>, g: PromptGrade)
    requires n < |prompts| && GradesListed(uses, prompts, n, known, grades, at)
    requires prompts[n] in known ==> GradeFor(uses, prompts[n], known, g)
    ensures if prompts[n] in known then GradesListed(uses, prompts, n + 1, known, grades + [g], at + [n])
            else GradesListed(uses, prompts, n + 1, known, grades, at)
  {
    hide Picks, PromptSpec, PromptGradeOf;
    PicksMore(at, n, Registered(prompts, known));
  }

  lemma {:induction false} PromptGradesTell(uses: seq<Use>, prompts: seq<nat>, n: nat, known: map<nat, (string, nat)>) returns (at: seq<nat>)
    requires n <= |prompts|
    ensures GradesListed(uses, prompts, n, known, PromptGrades(uses, prompts[..n], known), at)
  {
    at := [];
    if n == 0 {
      PicksNone(Registered(prompts, known));
    } else {
      hide GradesListed, PromptSpec, PromptGradeOf;
      at := PromptGradesTell(uses, prompts, n - 1, known);
      assert prompts[..n][..n - 1] == prompts[..n - 1];
      var p := prompts[n - 1];
      var g := PromptGradeOf(p, if p in known then known[p].0 else "", if p in known then known[p].1 else 0, PromptSpec(uses, p));
      GradesMore(uses, prompts, n - 1, known, PromptGrades(uses, prompts[..n - 1], known), at, g);
      at := if p in known then at + [n - 1] else at;
    }
  }
}
