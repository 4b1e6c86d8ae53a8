/** What the grades of a lab add up to, and how they are ranked. */
module GradeLaws {
  import opened Options
  import opened Sorting
  import opened Strings
  import opened Grades

  // ----- conservation over agents -----------------------------------------------------------------

  datatype Tally = Tally(runs: nat, cands: nat, deltas: nat, gain: real, newBest: nat)

  function Add(a: Tally, b: Tally): Tally {
    Tally(a.runs + b.runs, a.cands + b.cands, a.deltas + b.deltas, a.gain + b.gain, a.newBest + b.newBest)
  }

  function Positive(d: real): real {
    if d > 0.0 then d else 0.0
  }

  /** The sum of the positive parts. */
  function Gain(deltas: seq<real>): real {
    if deltas == [] then 0.0 else Gain(deltas[..|deltas| - 1]) + Positive(deltas[|deltas| - 1])
  }

  function TallyOf(acc: AgentAcc): Tally {
    Tally(acc.runs, |acc.scores|, |acc.deltas|, Gain(acc.deltas), acc.newBest)
  }

  /** The tallies of the given agents together. */
  function TallyAll(runs: seq<Run>, agents: seq<string>): Tally {
    if agents == [] then Tally(0, 0, 0, 0.0, 0)
    else Add(TallyAll(runs, agents[..|agents| - 1]), TallyOf(AgentSpec(runs, agents[|agents| - 1])))
  }

  /** One scored run's contribution. */
  function Share(earlier: seq<Run>, run: Run): Tally
    requires run.cands != []
  {
    var d := Delta(earlier, run);
    Tally(1, |run.cands|, if d.None? then 0 else 1, if d.None? then 0.0 else Positive(d.value), if d.None? || d.value > 0.0 then 1 else 0)
  }

  predicate Distinct<T(==)>(s: seq<T>) {
    forall i, j :: 0 <= i < j < |s| ==> s[i] != s[j]
  }

  lemma TallyWithRun(acc: AgentAcc, earlier: seq<Run>, run: Run)
    requires run.cands != []
    ensures TallyOf(WithRun(acc, earlier, run)) == Add(TallyOf(acc), Share(earlier, run))
  {
    var d := Delta(earlier, run);
    if d.Some? {
      assert (acc.deltas + [d.value])[..|acc.deltas|] == acc.deltas;
    }
  }

  lemma {:induction false} TallyStep(earlier: seq<Run>, run: Run, agents: seq<string>)
    requires run.cands != [] && Distinct(agents)
    ensures TallyAll(earlier + [run], agents) ==
      if AgentFrom(run.steps, 0) in agents then Add(TallyAll(earlier, agents), Share(earlier, run))
      else TallyAll(earlier, agents)
  {
    hide AgentSpec, WithRun, Delta, Share, AgentFrom, TallyOf, Agents;
    if agents != [] {
      var n := |agents| - 1;
      var init, a := agents[..n], agents[n];
      assert agents == init + [a];
      TallyStep(earlier, run, init);
      AgentStep(earlier, run);
      TallyWithRun(AgentSpec(earlier, a), earlier, run);
      if a == AgentFrom(run.steps, 0) {
        assert a !in init;
      }
    }
  }

  lemma {:induction false} TallySame(runs: seq<Run>, more: seq<Run>, agents: seq<string>)
    requires forall a :: AgentSpec(more, a) == AgentSpec(runs, a)
    ensures TallyAll(more, agents) == TallyAll(runs, agents)
  {
    if agents != [] {
      TallySame(runs, more, agents[..|agents| - 1]);
    }
  }

  lemma {:induction false} AgentsDistinct(runs: seq<Run>)
    ensures Distinct(Agents(runs))
  {
    if runs != [] {
      AgentsDistinct(runs[..|runs| - 1]);
    }
  }

  function ScoredRuns(runs: seq<Run>): nat {
    if runs == [] then 0
    else ScoredRuns(runs[..|runs| - 1]) + if runs[|runs| - 1].cands != [] then 1 else 0
  }

  /** The best score of the first run that has one. */
  function FirstBest(runs: seq<Run>): Option<real> {
    if runs == [] then None
    else
      var before := FirstBest(runs[..|runs| - 1]);
      if before.Some? then before else MaxOf(ScoresOf(runs[|runs| - 1].cands))
  }

  /** How many runs beat everything before them. */
  function Raises(runs: seq<Run>): nat {
    if runs == [] then 0
    else
      var earlier, run := runs[..|runs| - 1], runs[|runs| - 1];
      Raises(earlier) +
        if run.cands != [] && Delta(earlier, run).Some? && Delta(earlier, run).value > 0.0 then 1 else 0
  }

  function Whole(runs: seq<Run>): Tally {
    if Best(runs).None? || FirstBest(runs).None? || ScoredRuns(runs) == 0 then Tally(0, 0, 0, 0.0, 0)
    else Tally(ScoredRuns(runs), |AllScores(runs)|, ScoredRuns(runs) - 1, Best(runs).value - FirstBest(runs).value, 1 + Raises(runs))
  }

  lemma {:induction false} WholeKnown(runs: seq<Run>)
    ensures (Best(runs).None? <==> FirstBest(runs).None?) && (Best(runs).None? <==> AllScores(runs) == [])
    ensures Best(runs).None? <==> ScoredRuns(runs) == 0
    ensures Best(runs).None? ==> Raises(runs) == 0
  {
    MaxOfIsMax(AllScores(runs));
    if runs != [] {
      var earlier, run := runs[..|runs| - 1], runs[|runs| - 1];
      WholeKnown(earlier);
      MaxOfIsMax(ScoresOf(run.cands));
    }
  }

  lemma WholeStep(earlier: seq<Run>, run: Run)
    requires run.cands != []
    ensures Whole(earlier + [run]) == Add(Whole(earlier), Share(earlier, run))
  {
    var runs := earlier + [run];
    assert runs[..|earlier|] == earlier;
    WholeKnown(earlier);
    WholeKnown(runs);
    RunStep(earlier, run);
    MaxOfIsMax(ScoresOf(run.cands));
  }

  /** The positive parts of all agents' deltas sum to the final frontier minus the first scored run's
      best; their new-bests to one more than the positive deltas; they have a delta for every scored run
      but the first, and their runs and candidates are the scored runs and candidates. */
  lemma {:induction false} GradesConserve(runs: seq<Run>)
    ensures TallyAll(runs, Agents(runs)) == Whole(runs)
  {
    if runs != [] {
      var earlier, run := runs[..|runs| - 1], runs[|runs| - 1];
      assert runs == earlier + [run];
      GradesConserve(earlier);
      RunStep(earlier, run);
      if run.cands == [] {
        WholeIdle(earlier, run);
        TallySame(earlier, runs, Agents(runs));
      } else {
        ConserveStep(earlier, run);
      }
    }
  }

  lemma WholeIdle(earlier: seq<Run>, run: Run)
    requires run.cands == []
    ensures Whole(earlier + [run]) == Whole(earlier)
  {
    assert (earlier + [run])[..|earlier|] == earlier;
    RunStep(earlier, run);
  }

  lemma ConserveStep(earlier: seq<Run>, run: Run)
    requires run.cands != [] && TallyAll(earlier, Agents(earlier)) == Whole(earlier)
    ensures TallyAll(earlier + [run], Agents(earlier + [run])) == Whole(earlier + [run])
  {
    hide Whole, Share, WithRun, Delta, AgentSpec, Agents, AgentFrom, TallyOf;
    var agent := AgentFrom(run.steps, 0);
    WholeStep(earlier, run);
    AgentStep(earlier, run);
    AgentsDistinct(earlier);
    TallyStep(earlier, run, Agents(earlier));
    if agent !in Agents(earlier) {
      var more := Agents(earlier) + [agent];
      assert more[..|Agents(earlier)|] == Agents(earlier);
      NewAgent(earlier, agent);
      TallyWithRun(NO_AGENT_ACC, earlier, run);
      NothingYet();
    }
  }

  lemma NothingYet()
    ensures TallyOf(NO_AGENT_ACC) == Tally(0, 0, 0, 0.0, 0)
  {}

  // ----- conservation over prompts ------------------------------------------------------------------

  /** Candidates of the run credited to the prompt, at iteration 0 or at a later one. */
  function CreditedAt(run: Run, prompt: nat, cold: bool, n: nat): nat
    requires n <= |run.cands|
  {
    if n == 0 then 0
    else
      var c := run.cands[n - 1];
      CreditedAt(run, prompt, cold, n - 1) +
        if PromptAt(run.steps, c.iteration) == Some(prompt) && (c.iteration == 0) == cold then 1 else 0
  }

  /** Uses nothing can be compared with: iteration-0 uses in the first scored run, and later uses in
      runs with no scored iteration 0. */
  function Unpaired(runs: seq<Run>, prompt: nat): nat {
    if runs == [] then 0
    else
      var earlier, run := runs[..|runs| - 1], runs[|runs| - 1];
      Unpaired(earlier, prompt)
        + (if AllScores(earlier) == [] then CreditedAt(run, prompt, true, |run.cands|) else 0)
        + (if forall c :: c in run.cands ==> c.iteration != 0 then CreditedAt(run, prompt, false, |run.cands|) else 0)
  }

  predicate NoBasis(use: Use) {
    if use.iteration == 0 then use.frontier.None? else use.iter0.None?
  }

  function NoBasisCount(uses: seq<Use>, prompt: nat): nat {
    if uses == [] then 0
    else
      var last := uses[|uses| - 1];
      NoBasisCount(uses[..|uses| - 1], prompt) + if last.prompt == prompt && NoBasis(last) then 1 else 0
  }

  lemma {:induction false} PromptPairs(uses: seq<Use>, prompt: nat)
    ensures var acc := PromptSpec(uses, prompt);
      acc.uses == |acc.cold| + |acc.iter| + NoBasisCount(uses, prompt)
  {
    if uses != [] {
      PromptPairs(uses[..|uses| - 1], prompt);
    }
  }

  lemma {:induction false} NoBasisConcat(a: seq<Use>, b: seq<Use>, prompt: nat)
    ensures NoBasisCount(a + b, prompt) == NoBasisCount(a, prompt) + NoBasisCount(b, prompt)
  {
    if b == [] {
      assert a + b == a;
    } else {
      NoBasisConcat(a, b[..|b| - 1], prompt);
      assert (a + b)[..|a + b| - 1] == a + b[..|b| - 1];
    }
  }

  lemma {:induction false} Iteration0Found(cands: seq<Candidate>, from: nat)
    ensures Iteration0(cands, from).None? <==> forall i :: from <= i < |cands| ==> cands[i].iteration != 0
    decreases |cands| - from
  {
    if from < |cands| {
      Iteration0Found(cands, from + 1);
    }
  }

  lemma {:induction false} NoBasisIn(earlier: seq<Run>, run: Run, prompt: nat, n: nat)
    requires n <= |run.cands|
    ensures NoBasisCount(UsesIn(earlier, run, n), prompt) ==
      (if Best(earlier).None? then CreditedAt(run, prompt, true, n) else 0) +
      (if Iteration0(run.cands, 0).None? then CreditedAt(run, prompt, false, n) else 0)
  {
    if n > 0 {
      hide Best, Iteration0, PromptAt, NoBasisCount;
      NoBasisIn(earlier, run, prompt, n - 1);
      NoBasisSnoc(UsesIn(earlier, run, n - 1), UsesIn(earlier, run, n), prompt);
    } else {
      NoBasisNothing(prompt);
    }
  }

  lemma NoBasisNothing(prompt: nat)
    ensures NoBasisCount([], prompt) == 0
  {}

  lemma NoBasisSnoc(before: seq<Use>, now: seq<Use>, prompt: nat)
    requires now == before || (now != [] && now == before + [now[|now| - 1]])
    ensures NoBasisCount(now, prompt) == NoBasisCount(before, prompt) +
      if now != before && now[|now| - 1].prompt == prompt && NoBasis(now[|now| - 1]) then 1 else 0
  {
    if now != before {
      assert now[..|now| - 1] == before;
    }
  }

  /** A prompt's uses are its recorded deltas plus the uses that had nothing to be compared with. */
  lemma {:induction false} PromptUsesConserve(runs: seq<Run>, prompt: nat)
    ensures var acc := PromptSpec(Uses(runs), prompt);
      acc.uses == |acc.cold| + |acc.iter| + Unpaired(runs, prompt)
  {
    PromptPairs(Uses(runs), prompt);
    UnpairedCount(runs, prompt);
  }

  lemma {:induction false} UnpairedCount(runs: seq<Run>, prompt: nat)
    ensures NoBasisCount(Uses(runs), prompt) == Unpaired(runs, prompt)
  {
    if runs != [] {
      var earlier, run := runs[..|runs| - 1], runs[|runs| - 1];
      UnpairedCount(earlier, prompt);
      NoBasisConcat(Uses(earlier), UsesIn(earlier, run, |run.cands|), prompt);
      NoBasisIn(earlier, run, prompt, |run.cands|);
      MaxOfIsMax(AllScores(earlier));
      Iteration0Found(run.cands, 0);
    }
  }

  // ----- records ------------------------------------------------------------------------------------

  /** How many scores are above everything before them. */
  function Records(scores: seq<real>): nat {
    if scores == [] then 0
    else
      var best := MaxOf(scores[..|scores| - 1]);
      Records(scores[..|scores| - 1]) + if best.None? || scores[|scores| - 1] > best.value then 1 else 0
  }

  function NewBestAll(uses: seq<Use>, prompts: seq<nat>): nat {
    if prompts == [] then 0
    else NewBestAll(uses, prompts[..|prompts| - 1]) + PromptSpec(uses, prompts[|prompts| - 1]).newBest
  }

  lemma {:induction false} NewBestStep(uses: seq<Use>, use: Use, prompts: seq<nat>)
    requires Distinct(prompts)
    ensures NewBestAll(uses + [use], prompts) ==
      NewBestAll(uses, prompts) + if use.prompt in prompts && IsRecord(uses, use) then 1 else 0
  {
    if prompts != [] {
      var n := |prompts| - 1;
      assert prompts == prompts[..n] + [prompts[n]];
      NewBestStep(uses, use, prompts[..n]);
      UseStep(uses, use);
      if prompts[n] == use.prompt {
        assert use.prompt !in prompts[..n];
      }
    }
  }

  lemma {:induction false} PromptsDistinct(uses: seq<Use>)
    ensures Distinct(Prompts(uses))
  {
    if uses != [] {
      PromptsDistinct(uses[..|uses| - 1]);
    }
  }

  /** The new-bests of all prompts are the records among the attributed candidates, each once. */
  lemma {:induction false} NewBestsAreRecords(uses: seq<Use>)
    ensures NewBestAll(uses, Prompts(uses)) == Records(UseScores(uses))
  {
    if uses != [] {
      var n := |uses| - 1;
      var earlier, use := uses[..n], uses[n];
      assert uses == earlier + [use];
      NewBestsAreRecords(earlier);
      PromptsDistinct(earlier);
      NewBestStep(earlier, use, Prompts(earlier));
      UseStep(earlier, use);
      assert UseScores(uses)[..n] == UseScores(earlier);
      if use.prompt !in Prompts(earlier) {
        var more := Prompts(earlier) + [use.prompt];
        assert more[..|Prompts(earlier)|] == Prompts(earlier);
        NewPrompt(earlier, use.prompt);
      }
    }
  }

  predicate AllAttributed(runs: seq<Run>) {
    forall r :: r in runs ==> forall c :: c in r.cands ==> PromptAt(r.steps, c.iteration).Some?
  }

  lemma {:induction false} AttributedScores(earlier: seq<Run>, run: Run, n: nat)
    requires n <= |run.cands| && forall c :: c in run.cands ==> PromptAt(run.steps, c.iteration).Some?
    ensures UseScores(UsesIn(earlier, run, n)) == ScoresOf(run.cands)[..n]
  {
    if n > 0 {
      AttributedScores(earlier, run, n - 1);
      assert run.cands[n - 1] in run.cands;
    }
  }

  lemma {:induction false} AttributedAll(runs: seq<Run>)
    requires AllAttributed(runs)
    ensures UseScores(Uses(runs)) == AllScores(runs)
  {
    if runs != [] {
      var earlier, run := runs[..|runs| - 1], runs[|runs| - 1];
      assert run in runs && forall r :: r in earlier ==> r in runs;
      AttributedAll(earlier);
      AttributedScores(earlier, run, |run.cands|);
      assert UseScores(Uses(runs)) == UseScores(Uses(earlier)) + UseScores(UsesIn(earlier, run, |run.cands|));
    }
  }

  /** When every scored candidate used a prompt, prompt new-bests are the lab's records. */
  lemma LabWideRecords(runs: seq<Run>)
    requires AllAttributed(runs)
    ensures NewBestAll(Uses(runs), Prompts(Uses(runs))) == Records(AllScores(runs))
  {
    AttributedAll(runs);
    NewBestsAreRecords(Uses(runs));
  }

  /** The scores of all candidates, attributed or not, before candidate `n` of the run. */
  function ScoresBefore(earlier: seq<Run>, run: Run, n: nat): seq<real>
    requires n <= |run.cands|
  {
    AllScores(earlier) + ScoresOf(run.cands)[..n]
  }

  /** The attributed candidates before candidate `n` of the run. */
  function UsesBefore(earlier: seq<Run>, run: Run, n: nat): seq<Use>
    requires n <= |run.cands|
  {
    Uses(earlier) + UsesIn(earlier, run, n)
  }

  predicate IsLabRecord(scores: seq<real>, score: real) {
    MaxOf(scores).None? || score > MaxOf(scores).value
  }

  lemma {:induction false} UsesInAmong(earlier: seq<Run>, run: Run, n: nat)
    requires n <= |run.cands|
    ensures forall use :: use in UsesIn(earlier, run, n) ==> use.score in ScoresOf(run.cands)[..n]
  {
    if n > 0 {
      UsesInAmong(earlier, run, n - 1);
      var s := ScoresOf(run.cands);
      assert s[..n] == s[..n - 1] + [s[n - 1]];
    }
  }

  lemma {:induction false} UsesAmong(runs: seq<Run>)
    ensures forall use :: use in Uses(runs) ==> use.score in AllScores(runs)
  {
    hide UsesIn;
    if runs != [] {
      var earlier, run := runs[..|runs| - 1], runs[|runs| - 1];
      UsesAmong(earlier);
      UsesInAmong(earlier, run, |run.cands|);
    }
  }

  /** The running best of the attributed candidates never exceeds the lab's, and equals it exactly when
      there is no candidate yet or an attributed one has the best score. */
  lemma SeenIff(earlier: seq<Run>, run: Run, n: nat)
    requires n <= |run.cands|
    ensures var seen, best := MaxOf(UseScores(UsesBefore(earlier, run, n))), MaxOf(ScoresBefore(earlier, run, n));
      && (seen.Some? ==> best.Some? && seen.value <= best.value)
      && (seen == best <==>
            best.None? || exists use :: use in UsesBefore(earlier, run, n) && use.score == best.value)
  {
    hide Uses, UsesIn, AllScores, MaxOf;
    var uses, scores := UsesBefore(earlier, run, n), ScoresBefore(earlier, run, n);
    UsesAmong(earlier);
    UsesInAmong(earlier, run, n);
    MaxOfIsMax(UseScores(uses));
    MaxOfIsMax(scores);
    forall x | x in UseScores(uses) ensures exists use :: use in uses && use.score == x {
      var i :| 0 <= i < |uses| && uses[i].score == x;
      assert uses[i] in uses;
    }
    forall use | use in uses ensures use.score in UseScores(uses) && use.score in scores {
      var i :| 0 <= i < |uses| && uses[i] == use;
      assert UseScores(uses)[i] == use.score;
    }
  }

  /** Candidate `n` of a run, if attributed, is counted as a new best exactly when it is a record of the
      whole lab, whatever its score. */
  ghost predicate CountedRight(earlier: seq<Run>, run: Run, n: nat)
    requires n <= |run.cands|
  {
    forall use: Use :: IsRecord(UsesBefore(earlier, run, n), use) <==> IsLabRecord(ScoresBefore(earlier, run, n), use.score)
  }

  /** A prompt's new bests count lab records rightly exactly as long as an attributed candidate has the
      lab's best score; a lab record is never missed. */
  lemma CountedRightIff(earlier: seq<Run>, run: Run, n: nat)
    requires n <= |run.cands|
    ensures var best := MaxOf(ScoresBefore(earlier, run, n));
      CountedRight(earlier, run, n) <==>
        best.None? || exists use :: use in UsesBefore(earlier, run, n) && use.score == best.value
    ensures forall use: Use ::
      IsLabRecord(ScoresBefore(earlier, run, n), use.score) ==> IsRecord(UsesBefore(earlier, run, n), use)
  {
    hide UsesBefore, ScoresBefore, MaxOf;
    var uses, best := UsesBefore(earlier, run, n), MaxOf(ScoresBefore(earlier, run, n));
    var seen := MaxOf(UseScores(uses));
    SeenIff(earlier, run, n);
    if seen != best {
      var use := Use(0, 0, best.value, None, None, None);
      assert IsRecord(uses, use) && !IsLabRecord(ScoresBefore(earlier, run, n), use.score);
    }
  }

  /** A run whose candidate used no prompt, then a worse one that used prompt 7. */
  function FirstRun(): Run {
    Run(0, [], [Candidate(0, 10.0, None)])
  }

  function SecondRun(): Run {
    Run(1, [Step(0, "", Some(7))], [Candidate(0, 5.0, None)])
  }

  lemma ExampleScores()
    ensures AllScores([FirstRun()]) == [10.0] && AllScores([FirstRun(), SecondRun()]) == [10.0, 5.0]
  {
    hide MaxOf, Agents, AgentSpec, AgentFrom, Uses, UsesIn, Best;
    assert [FirstRun(), SecondRun()] == [FirstRun()] + [SecondRun()];
    assert [FirstRun()] == [] + [FirstRun()];
    RunStep([], FirstRun());
    RunStep([FirstRun()], SecondRun());
  }

  lemma ExampleRecords()
    ensures Records([10.0, 5.0]) == 1
  {
    assert [10.0, 5.0][..1] == [10.0] && [10.0][..0] == [];
    assert MaxOf([10.0]) == Some(10.0);
    assert Records([10.0]) == 1;
  }

  lemma SingleCandidateUses(earlier: seq<Run>, run: Run)
    requires |run.cands| == 1
    ensures var c := run.cands[0];
      var prompt := PromptAt(run.steps, c.iteration);
      Uses(earlier + [run]) ==
        if prompt.None? then Uses(earlier)
        else Uses(earlier) + [Use(prompt.value, c.iteration, c.score, c.cost, Best(earlier), Iteration0(run.cands, 0))]
  {
    hide MaxOf, AllScores, Best, PromptAt, Iteration0, AgentSpec, Agents, AgentFrom;
    RunStep(earlier, run);
    NoUses(earlier, run);
    OneMoreUse(earlier, run, 0);
  }

  lemma NoRunNoUses()
    ensures Uses([]) == []
  {}

  lemma ExampleUses() returns (use: Use)
    ensures Uses([FirstRun(), SecondRun()]) == [use] && use.prompt == 7 && use.score == 5.0
  {
    hide Uses, Best, Iteration0;
    assert [FirstRun(), SecondRun()] == [FirstRun()] + [SecondRun()];
    assert [FirstRun()] == [] + [FirstRun()];
    SingleCandidateUses([], FirstRun());
    SingleCandidateUses([FirstRun()], SecondRun());
    NoRunNoUses();
    use := Use(7, 0, 5.0, None, Best([FirstRun()]), Iteration0(SecondRun().cands, 0));
  }

  /** A candidate without a prompt does not raise the running best: a worse one after it is counted
      as a new best although the lab has only one record. */
  lemma UnattributedNotSeen()
    ensures var runs := [FirstRun(), SecondRun()];
      Records(AllScores(runs)) == 1 && PromptSpec(Uses(runs), 7).newBest == 1 &&
      AllScores(runs) == [10.0, 5.0] && UseScores(Uses(runs)) == [5.0]
  {
    ExampleScores();
    ExampleRecords();
    var use := ExampleUses();
    UseStep([], use);
    assert [] + [use] == [use];
    assert UseScores([]) == [];
    assert UseScores([use]) == [5.0];
  }

  // ----- ranking ------------------------------------------------------------------------------------

  /** `round(x, 2)`: to the nearest hundredth, ties to even. */
  function Round2(x: real): real {
    var n := (x * 100.0).Floor;
    var rest := x * 100.0 - n as real;
    if rest < 0.5 || (rest == 0.5 && n % 2 == 0) then n as real / 100.0 else (n + 1) as real / 100.0
  }

  function SumOf(s: seq<real>): real {
    if s == [] then 0.0 else SumOf(s[..|s| - 1]) + s[|s| - 1]
  }

  function Mean(s: seq<real>): Option<real> {
    if s == [] then None else Some(Round2(SumOf(s) / |s| as real))
  }

  function RoundedMax(s: seq<real>): Option<real> {
    var m := MaxOf(s);
    if m.None? then None else Some(Round2(m.value))
  }

  datatype AgentGrade = AgentGrade(
    agent: string, runs: nat, candidates: nat, avgScore: Option<real>, avgDelta: Option<real>,
    bestDelta: Option<real>, newBestRate: real, avgCost: Option<real>, lastUsed: nat)

  function GradeOf(agent: string, acc: AgentAcc): AgentGrade {
    AgentGrade(agent, acc.runs, |acc.scores|, Mean(acc.scores), Mean(acc.deltas), RoundedMax(acc.deltas),
               if acc.runs == 0 then 0.0 else Round2(acc.newBest as real / acc.runs as real), Mean(acc.costs), acc.last)
  }

  /** The key `(avg is None, -(avg or 0))`. */
  predicate DeltaLe(a: Option<real>, b: Option<real>) {
    b.None? || (a.Some? && a.value >= b.value)
  }

  predicate AgentLe(a: AgentGrade, b: AgentGrade) {
    DeltaLe(a.avgDelta, b.avgDelta)
  }

  function AgentGrades(runs: seq<Run>, agents: seq<string>): (g: seq<AgentGrade>)
    ensures |g| == |agents|
  {
    seq(|agents|, i requires 0 <= i < |agents| => GradeOf(agents[i], AgentSpec(runs, agents[i])))
  }

  function AgentBoard(runs: seq<Run>): seq<AgentGrade> {
    Sorted(AgentGrades(runs, Agents(runs)), AgentLe)
  }

  /** Highest average delta first, agents without one last, ties by first use; nobody lost. */
  lemma AgentBoardRanked(runs: seq<Run>)
    ensures var board, grades := AgentBoard(runs), AgentGrades(runs, Agents(runs));
      && multiset(board) == multiset(grades)
      && (forall i, j :: 0 <= i < j < |board| ==>
            board[j].avgDelta.None? || (board[i].avgDelta.Some? && board[i].avgDelta.value >= board[j].avgDelta.value))
      && (forall g :: Ties(board, g, AgentLe) == Ties(grades, g, AgentLe))
  {
    SortsStably(AgentGrades(runs, Agents(runs)), AgentLe);
  }

  datatype Basis = Mixed | ColdStart | IterateLift | NoneYet

  datatype PromptGrade = PromptGrade(
    id: nat, slug: string, version: nat, uses: nat, basis: Basis, avgScore: Option<real>,
    avgDelta: Option<real>, bestDelta: Option<real>, newBestRate: real, avgCost: Option<real>)

  function BasisOf(acc: PromptAcc): Basis {
    if acc.cold != [] && acc.iter != [] then Mixed
    else if acc.cold != [] then ColdStart
    else if acc.iter != [] then IterateLift
    else NoneYet
  }

  function PromptGradeOf(id: nat, slug: string, version: nat, acc: PromptAcc): PromptGrade {
    var deltas := acc.cold + acc.iter;
    PromptGrade(id, slug, version, acc.uses, BasisOf(acc), Mean(acc.scores), Mean(deltas), RoundedMax(deltas),
                if acc.uses == 0 then 0.0 else Round2(acc.newBest as real / acc.uses as real), Mean(acc.costs))
  }

  predicate PromptLe(a: PromptGrade, b: PromptGrade) {
    StrLe(a.slug, b.slug) && (a.slug == b.slug ==> DeltaLe(a.avgDelta, b.avgDelta))
  }

  /** The prompts with a row, in first-use order. */
  function PromptGrades(uses: seq<Use>, prompts: seq<nat>, known: map<nat, (string, nat)>): seq<PromptGrade> {
    if prompts == [] then []
    else
      var before, p := PromptGrades(uses, prompts[..|prompts| - 1], known), prompts[|prompts| - 1];
      if p in known then before + [PromptGradeOf(p, known[p].0, known[p].1, PromptSpec(uses, p))] else before
  }

  function PromptBoard(runs: seq<Run>, known: map<nat, (string, nat)>): seq<PromptGrade> {
    var uses := Uses(runs);
    Sorted(PromptGrades(uses, Prompts(uses), known), PromptLe)
  }

  lemma PromptLeTotal()
    ensures TotalPreorder(PromptLe)
  {
    forall a: PromptGrade, b: PromptGrade ensures PromptLe(a, b) || PromptLe(b, a) {
      StrLeTotal(a.slug, b.slug);
    }
    forall a: PromptGrade, b: PromptGrade, c: PromptGrade | PromptLe(a, b) && PromptLe(b, c) ensures PromptLe(a, c) {
      StrLeTransitive(a.slug, b.slug, c.slug);
      StrLeTotal(a.slug, b.slug);
      StrLeTotal(b.slug, c.slug);
    }
  }

  /** Prompt lines in order of their slug, and within a line the highest average delta first. */
  lemma PromptBoardRanked(runs: seq<Run>, known: map<nat, (string, nat)>)
    ensures var board, grades := PromptBoard(runs, known), PromptGrades(Uses(runs), Prompts(Uses(runs)), known);
      && multiset(board) == multiset(grades)
      && (forall i, j :: 0 <= i < j < |board| ==>
            StrLe(board[i].slug, board[j].slug) &&
            (board[i].slug == board[j].slug ==>
               board[j].avgDelta.None? || (board[i].avgDelta.Some? && board[i].avgDelta.value >= board[j].avgDelta.value)))
      && (forall g :: Ties(board, g, PromptLe) == Ties(grades, g, PromptLe))
  {
    PromptLeTotal();
    SortsStably(PromptGrades(Uses(runs), Prompts(Uses(runs)), known), PromptLe);
  }
}
