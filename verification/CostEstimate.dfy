/** The dry-run estimate of tutor and judge calls against the calls the evaluation runner makes. */
module CostEstimate {
  import opened Prelude

  datatype Case = Case(multiTurn: bool, split: string)

  /** How far a case gets before an exception the runner does not record. */
  datatype Stage = Building | Retrieving | Generating

  /** What one case comes to: an error the runner records, before or at the call of the language model,
      an answer (parsed or not) whose grading may raise, or another exception that ends the run. */
  datatype Behaviour =
    | RetrievalError
    | ProviderError
    | Answered(parsed: bool, raises: bool)
    | Crash(stage: Stage)
  {
    predicate Raises() {
      Crash? || (Answered? && raises)
    }

    predicate CallsTutor() {
      ProviderError? || Answered? || (Crash? && stage.Generating?)
    }
  }

  function Selected(cases: seq<Case>, split: Option<string>): seq<Case> {
    if cases == [] then []
    else
      var front, last := Selected(cases[..|cases| - 1], split), cases[|cases| - 1];
      if split == None || split == Some("all") || split == Some(last.split) then front + [last] else front
  }

  /** Just the cases of the split are selected: all of them for no split and for "all". */
  lemma {:induction false} SelectedIs(cases: seq<Case>, split: Option<string>, c: Case)
    ensures multiset(Selected(cases, split))[c] ==
      if split == None || split == Some("all") || split == Some(c.split) then multiset(cases)[c] else 0
  {
    if cases != [] {
      SelectedIs(cases[..|cases| - 1], split, c);
      assert cases == cases[..|cases| - 1] + [cases[|cases| - 1]];
    }
  }

  function SingleTurn(cases: seq<Case>): seq<Case> {
    if cases == [] then []
    else
      var front, last := SingleTurn(cases[..|cases| - 1]), cases[|cases| - 1];
      if last.multiTurn then front else front + [last]
  }

  /** Just the cases without a conversation are single-turn. */
  lemma {:induction false} SingleTurnHas(cases: seq<Case>, c: Case)
    ensures multiset(SingleTurn(cases))[c] == if c.multiTurn then 0 else multiset(cases)[c]
  {
    if cases != [] {
      SingleTurnHas(cases[..|cases| - 1], c);
      assert cases == cases[..|cases| - 1] + [cases[|cases| - 1]];
    }
  }

  lemma {:induction false} SingleTurnIs(cases: seq<Case>)
    ensures |SingleTurn(cases)| <= |cases|
    ensures forall i | 0 <= i < |SingleTurn(cases)| :: !SingleTurn(cases)[i].multiTurn
  {
    if cases != [] {
      SingleTurnIs(cases[..|cases| - 1]);
    }
  }

  /** Cases that reach the tutor engine. */
  function Executable(cases: seq<Case>, persistent: bool): nat {
    if persistent then |cases| else |SingleTurn(cases)|
  }

  function Min(a: int, b: int): int {
    if a <= b then a else b
  }

  /** Python's length of `cases[:count]`. */
  function SliceLength(n: nat, count: int): nat {
    if count >= 0 then Min(count, n) else if n + count > 0 then n + count else 0
  }

  datatype Estimate = Estimate(tutorCalls: int, judgeCalls: int, warmupCalls: int)

  /** `estimate_evaluation_cost`, as far as it counts calls. */
  function EstimateCalls(cases: seq<Case>, split: Option<string>, repeats: int, warmup: int, judge: bool,
                         persistent: bool): Estimate
  {
    var selected := Selected(cases, split);
    var skipped := |selected| - Executable(selected, persistent);
    var executable := |selected| - skipped;
    var measured := executable * repeats;
    var actualWarmup := Min(warmup, executable);
    Estimate(measured + actualWarmup, if judge then measured else 0, actualWarmup)
  }

  function Measured(selected: seq<Case>, repeats: int, persistent: bool): int {
    Executable(selected, persistent) * repeats
  }

  /** Engine executions of an uninterrupted run: the measured ones and the warm-up. */
  function PlannedRuns(selected: seq<Case>, repeats: int, warmup: int, persistent: bool): int {
    Measured(selected, repeats, persistent) + SliceLength(|SingleTurn(selected)|, warmup)
  }

  /** The calls made so far: executions of the tutor engine, those that ended in a retrieval error,
      and calls of the language model by the tutor and by the judge. */
  datatype Counters = Counters(runs: nat, retrievalErrors: nat, tutorCalls: nat, judgeCalls: nat)

  const NOTHING := Counters(0, 0, 0, 0)

  /** From `a` to `b` at most `planned` executions were added, each with at most one tutor call, and no
      more judge calls than tutor calls. */
  predicate Within(a: Counters, b: Counters, planned: int, judge: bool) {
    && a.runs <= b.runs <= a.runs + planned
    && b.tutorCalls - a.tutorCalls + b.retrievalErrors - a.retrievalErrors <= b.runs - a.runs
    && a.retrievalErrors <= b.retrievalErrors && a.tutorCalls <= b.tutorCalls
    && a.judgeCalls <= b.judgeCalls <= a.judgeCalls + if judge then b.tutorCalls - a.tutorCalls else 0
  }

  /** Just the planned executions were added, and those without a tutor call are the retrieval errors. */
  predicate Complete(a: Counters, b: Counters, planned: int) {
    && b.runs == a.runs + planned
    && b.tutorCalls - a.tutorCalls + b.retrievalErrors - a.retrievalErrors == planned
  }

  /** The executed cases of repeat `r` with a parsed answer. */
  function ParsedAnswers(cases: seq<Case>, persistent: bool, behave: (int, nat) -> Behaviour, r: int): nat {
    if cases == [] then 0
    else
      var i := |cases| - 1;
      ParsedAnswers(cases[..i], persistent, behave, r) +
      if (!cases[i].multiTurn || persistent) && behave(r, i).Answered? && behave(r, i).parsed then 1 else 0
  }

  function AllParsedAnswers(cases: seq<Case>, persistent: bool, behave: (int, nat) -> Behaviour, repeats: nat): nat {
    if repeats == 0 then 0
    else
      AllParsedAnswers(cases, persistent, behave, repeats - 1) + ParsedAnswers(cases, persistent, behave, repeats - 1)
  }

  lemma CountsAdd(a: Counters, b: Counters, c: Counters, first: int, next: int, judge: bool)
    requires Complete(a, b, first) && Within(a, b, first, judge) && Within(b, c, next, judge)
    ensures Within(a, c, first + next, judge) && (Complete(b, c, next) ==> Complete(a, c, first + next))
    ensures c.judgeCalls <= b.judgeCalls + if judge then next else 0
  {
  }

  lemma CountsStart(judge: bool)
    ensures Within(NOTHING, NOTHING, 0, judge) && Complete(NOTHING, NOTHING, 0)
  {
  }

  lemma PlanGrows(a: Counters, b: Counters, planned: int, more: int, judge: bool)
    requires Within(a, b, planned, judge) && planned <= more
    ensures Within(a, b, more, judge)
  {
  }

  /** The runner, with counters for the calls it makes. */
  class EvaluationRunner {
    const persistent: bool
    var judge: bool
    var made: Counters

    constructor (persistent: bool, judge: bool)
      ensures this.persistent == persistent && this.judge == judge && made == NOTHING
    {
      this.persistent, this.judge, made := persistent, judge, NOTHING;
    }

    predicate Executes(c: Case) {
      !c.multiTurn || persistent
    }

    /** `run_case`; false when an exception leaves it. A call counts from the moment it is made, so the
        judge call of an answer whose grading raises counts too. */
    method RunCase(c: Case, behaviour: Behaviour) returns (ok: bool)
      modifies this`made
      ensures ok <==> !(Executes(c) && behaviour.Raises())
      ensures made.runs == old(made.runs) +
        if Executes(c) && !(behaviour.Crash? && behaviour.stage.Building?) then 1 else 0
      ensures made.retrievalErrors == old(made.retrievalErrors) +
        if Executes(c) && behaviour.RetrievalError? then 1 else 0
      ensures made.tutorCalls == old(made.tutorCalls) + if Executes(c) && behaviour.CallsTutor() then 1 else 0
      ensures made.judgeCalls == old(made.judgeCalls) +
        if Executes(c) && judge && behaviour.Answered? && behaviour.parsed then 1 else 0
    {
      if c.multiTurn && !persistent {
        return true;
      }
      if behaviour.Crash? && behaviour.stage.Building? {
        return false;
      }
      made := made.(runs := made.runs + 1);
      if behaviour.Crash? && behaviour.stage.Retrieving? {
        return false;
      }
      if behaviour.RetrievalError? {
        made := made.(retrievalErrors := made.retrievalErrors + 1);
        return true;
      }
      made := made.(tutorCalls := made.tutorCalls + 1);
      if behaviour.Crash? && behaviour.stage.Generating? {
        return false;
      }
      if behaviour.ProviderError? {
        return true;
      }
      if judge && behaviour.parsed {
        made := made.(judgeCalls := made.judgeCalls + 1);
      }
      return !behaviour.raises;
    }

    /** One pass over some cases. */
    method RunCases(cases: seq<Case>, behave: (int, nat) -> Behaviour, r: int) returns (ok: bool)
      modifies this`made
      ensures Within(old(made), made, Executable(cases, persistent), judge)
      ensures ok ==> Complete(old(made), made, Executable(cases, persistent))
      ensures ok ==>
        made.judgeCalls == old(made.judgeCalls) + if judge then ParsedAnswers(cases, persistent, behave, r) else 0
      ensures ok <==> forall i | 0 <= i < |cases| && Executes(cases[i]) :: !behave(r, i).Raises()
    {
      for i := 0 to |cases|
        invariant forall k | 0 <= k < i && Executes(cases[k]) :: !behave(r, k).Raises()
        invariant made.judgeCalls ==
          old(made.judgeCalls) + if judge then ParsedAnswers(cases[..i], persistent, behave, r) else 0
        invariant Within(old(made), made, Executable(cases[..i], persistent), judge)
        invariant Complete(old(made), made, Executable(cases[..i], persistent))
      {
        assert cases[..i + 1][..i] == cases[..i];
        ExecutableGrows(cases, i + 1, persistent);
        ok := RunCase(cases[i], behave(r, i));
        if !ok {
          return;
        }
      }
      assert cases[..|cases|] == cases;
      ok := true;
    }

    /** `run_dataset`: warm-up without the judge, then every selected case in each repeat. The judge
        is back in place on every path, and the counters never pass the planned calls. */
    method RunDataset(cases: seq<Case>, split: Option<string>, repeats: int, warmup: int,
                      behave: (int, nat) -> Behaviour)
      returns (ok: bool)
      requires made == NOTHING
      modifies this
      ensures judge == old(judge)
      ensures repeats < 1 ==> !ok && made == NOTHING
      ensures repeats >= 1 ==>
        Within(NOTHING, made, PlannedRuns(Selected(cases, split), repeats, warmup, persistent), judge)
      ensures ok ==> Complete(NOTHING, made, PlannedRuns(Selected(cases, split), repeats, warmup, persistent))
      ensures made.judgeCalls <=
        if judge && repeats >= 1 then Measured(Selected(cases, split), repeats, persistent) else 0
      ensures ok ==>
        && repeats >= 1
        && made.judgeCalls == if judge then AllParsedAnswers(Selected(cases, split), persistent, behave, repeats) else 0
      ensures repeats >= 1 && (forall r: int, i: nat :: !behave(r, i).Raises()) ==> ok
    {
      CountsStart(judge);
      hide Selected, SingleTurn, Executable, SliceLength, Within, Complete, Measured, PlannedRuns;
      if repeats < 1 {
        return false;
      }
      var selected := Selected(cases, split);
      PlanStart(selected, repeats, warmup, persistent);
      if warmup != 0 {
        ok := WarmUp(selected, warmup, behave);
        if !ok {
          PlanGrows(NOTHING, made, SliceLength(|SingleTurn(selected)|, warmup),
                    PlannedRuns(selected, repeats, warmup, persistent), judge);
          return;
        }
      }
      for r := 0 to repeats
        invariant Within(NOTHING, made, PlannedRuns(selected, r, warmup, persistent), judge)
        invariant Complete(NOTHING, made, PlannedRuns(selected, r, warmup, persistent))
        invariant made.judgeCalls <= if judge then Measured(selected, r, persistent) else 0
        invariant judge == old(judge)
        invariant made.judgeCalls == if judge then AllParsedAnswers(selected, persistent, behave, r) else 0
      {
        PlanStep(selected, r, repeats, warmup, persistent);
        ghost var before := made;
        ok := RunCases(selected, behave, r);
        CountsAdd(NOTHING, before, made, PlannedRuns(selected, r, warmup, persistent),
                  Executable(selected, persistent), judge);
        if !ok {
          PlanGrows(NOTHING, made, PlannedRuns(selected, r + 1, warmup, persistent),
                    PlannedRuns(selected, repeats, warmup, persistent), judge);
          return;
        }
      }
      ok := true;
    }

    /** The warm-up: the first single-turn cases, with the judge set aside and put back in `finally`. */
    method WarmUp(selected: seq<Case>, warmup: int, behave: (int, nat) -> Behaviour) returns (ok: bool)
      requires made == NOTHING
      modifies this
      ensures judge == old(judge) && made.judgeCalls == 0
      ensures Within(NOTHING, made, SliceLength(|SingleTurn(selected)|, warmup), judge)
      ensures ok ==> Complete(NOTHING, made, SliceLength(|SingleTurn(selected)|, warmup))
      ensures (forall i: nat :: !behave(-1, i).Raises()) ==> ok
    {
      var warmupCases := SingleTurn(selected)[..SliceLength(|SingleTurn(selected)|, warmup)];
      WarmupIsExecutable(selected, |warmupCases|, persistent);
      var activeJudge := judge;
      judge := false;
      ok := RunCases(warmupCases, behave, -1);
      judge := activeJudge;
    }
  }

  lemma ExecutableGrows(cases: seq<Case>, n: nat, persistent: bool)
    requires n <= |cases|
    ensures Executable(cases[..n], persistent) <= Executable(cases, persistent)
  {
    if !persistent {
      SingleTurnGrows(cases, n);
    }
  }

  lemma {:induction false} SingleTurnGrows(cases: seq<Case>, n: nat)
    requires n <= |cases|
    ensures |SingleTurn(cases[..n])| <= |SingleTurn(cases)|
  {
    if n == |cases| {
      assert cases[..n] == cases;
    } else {
      assert cases[..|cases| - 1][..n] == cases[..n];
      SingleTurnGrows(cases[..|cases| - 1], n);
    }
  }

  lemma {:induction false} AllSingle(cases: seq<Case>)
    requires forall i | 0 <= i < |cases| :: !cases[i].multiTurn
    ensures SingleTurn(cases) == cases
  {
    if cases != [] {
      AllSingle(cases[..|cases| - 1]);
    }
  }

  lemma WarmupIsExecutable(selected: seq<Case>, n: nat, persistent: bool)
    requires n <= |SingleTurn(selected)|
    ensures Executable(SingleTurn(selected)[..n], persistent) == n
  {
    SingleTurnIs(selected);
    AllSingle(SingleTurn(selected)[..n]);
  }

  lemma PlanStart(selected: seq<Case>, repeats: nat, warmup: int, persistent: bool)
    ensures PlannedRuns(selected, 0, warmup, persistent) == SliceLength(|SingleTurn(selected)|, warmup)
      <= PlannedRuns(selected, repeats, warmup, persistent)
    ensures Measured(selected, 0, persistent) == 0 <= Measured(selected, repeats, persistent)
    ensures warmup == 0 ==> SliceLength(|SingleTurn(selected)|, warmup) == 0
  {
    Multiples(Executable(selected, persistent), 0, repeats);
  }

  lemma PlanStep(selected: seq<Case>, r: nat, repeats: nat, warmup: int, persistent: bool)
    requires r < repeats
    ensures PlannedRuns(selected, r + 1, warmup, persistent) ==
      PlannedRuns(selected, r, warmup, persistent) + Executable(selected, persistent)
    ensures PlannedRuns(selected, r + 1, warmup, persistent) <= PlannedRuns(selected, repeats, warmup, persistent)
    ensures Measured(selected, r + 1, persistent) ==
      Measured(selected, r, persistent) + Executable(selected, persistent)
    ensures Measured(selected, r + 1, persistent) <= Measured(selected, repeats, persistent)
  {
    Multiples(Executable(selected, persistent), r + 1, repeats);
  }

  lemma Multiples(e: nat, a: nat, b: nat)
    requires a <= b
    ensures e * a <= e * b
  {
  }

  /** The estimate bounds the planned tutor calls if and only if the warm-up count is not negative. */
  lemma EstimateIsUpperBound(cases: seq<Case>, split: Option<string>, repeats: int, warmup: int, judge: bool,
                             persistent: bool)
    ensures PlannedRuns(Selected(cases, split), repeats, warmup, persistent)
            <= EstimateCalls(cases, split, repeats, warmup, judge, persistent).tutorCalls
            <==> warmup >= 0
  {
    SingleTurnIs(Selected(cases, split));
  }

  /** It is exact if and only if the warm-up count is not negative and either there are enough
      single-turn cases for it or every executable case is one, as is always so without a
      persistent conversation. */
  lemma EstimateIsExact(cases: seq<Case>, split: Option<string>, repeats: int, warmup: int, judge: bool,
                        persistent: bool)
    ensures var selected := Selected(cases, split);
      var estimated := EstimateCalls(cases, split, repeats, warmup, judge, persistent).tutorCalls;
      var enough := warmup <= |SingleTurn(selected)| || Executable(selected, persistent) == |SingleTurn(selected)|;
      estimated == PlannedRuns(selected, repeats, warmup, persistent) <==> warmup >= 0 && enough
  {
    SingleTurnIs(Selected(cases, split));
  }

  lemma {:induction false} AllParsed(cases: seq<Case>, persistent: bool, behave: (int, nat) -> Behaviour, r: int)
    requires forall i: nat :: behave(r, i).Answered? && behave(r, i).parsed
    ensures ParsedAnswers(cases, persistent, behave, r) == Executable(cases, persistent)
  {
    if cases != [] {
      AllParsed(cases[..|cases| - 1], persistent, behave, r);
    }
  }

  /** The judge estimate is met by a run in which every answer is parsed. */
  lemma {:induction false} JudgeEstimateIsMet(cases: seq<Case>, split: Option<string>, repeats: nat, warmup: int,
                                              persistent: bool, behave: (int, nat) -> Behaviour)
    requires forall r: int, i: nat :: behave(r, i).Answered? && behave(r, i).parsed
    ensures AllParsedAnswers(Selected(cases, split), persistent, behave, repeats)
         == EstimateCalls(cases, split, repeats, warmup, true, persistent).judgeCalls
  {
    if repeats > 0 {
      JudgeEstimateIsMet(cases, split, repeats - 1, warmup, persistent, behave);
      AllParsed(Selected(cases, split), persistent, behave, repeats - 1);
    }
  }

  /** What a caller of both gets: for every dataset, split, repeat count and warm-up count of at least
      0 a run makes no more tutor and judge calls than estimated, however cases fail; and without a
      persistent conversation a run that completes executes the engine exactly as often as estimated
      tutor calls, and misses the estimate by just its retrieval errors. */
  method RunWithinEstimate(runner: EvaluationRunner, cases: seq<Case>, split: Option<string>, repeats: int, warmup: int,
                           behave: (int, nat) -> Behaviour)
    returns (estimate: Estimate, ok: bool)
    requires runner.made == NOTHING && repeats >= 1 && warmup >= 0
    modifies runner
    ensures estimate == EstimateCalls(cases, split, repeats, warmup, runner.judge, runner.persistent)
    ensures runner.made.tutorCalls <= runner.made.runs <= estimate.tutorCalls
    ensures runner.made.judgeCalls <= estimate.judgeCalls
    ensures ok && !runner.persistent ==>
      runner.made.runs == estimate.tutorCalls == runner.made.tutorCalls + runner.made.retrievalErrors
    ensures ok && runner.judge && (forall r: int, i: nat :: behave(r, i).Answered? && behave(r, i).parsed) ==>
      runner.made.judgeCalls == estimate.judgeCalls
  {
    estimate := EstimateCalls(cases, split, repeats, warmup, runner.judge, runner.persistent);
    EstimateIsUpperBound(cases, split, repeats, warmup, runner.judge, runner.persistent);
    EstimateIsExact(cases, split, repeats, warmup, runner.judge, runner.persistent);
    ok := runner.RunDataset(cases, split, repeats, warmup, behave);
    if forall r: int, i: nat :: behave(r, i).Answered? && behave(r, i).parsed {
      JudgeEstimateIsMet(cases, split, repeats, warmup, runner.persistent, behave);
    }
  }
}
