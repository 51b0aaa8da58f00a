// configurator/session.py: the forge loop. A baseline evaluation or a bootstrap, then
// improvement iterations, until one of nine reasons stops it. What each turn brings is the
// environment's choice.
module Forge {
  import opened Events

  datatype Reason =
    | ThresholdMet | MaxIter | CostExhausted | WallTimeExhausted | Plateau
    | SandboxViolation | ProviderFailure | EvalInfrastructureFailure | UserCancelled

  datatype Config = Config(bootstrap: bool, threshold: real, maxIter: nat, noImprovementAfter: nat)

  predicate ValidConfig(c: Config) {
    c.maxIter >= 1 && c.noImprovementAfter >= 1
  }

  datatype Kind = Bootstrap | Iterate

  datatype Record = Record(number: nat, kind: Kind, before: Option<real>, after: Option<real>, delta: Option<real>)

  // --- the environment ---

  // A session-run project evaluation.
  datatype Eval = Scored(score: real) | OverBudget | Failed

  datatype StepEnd = Clean | StepOverBudget | Violated | CancelledByUser | ProviderFailed

  // evals: scores of the project evaluations the step ran itself; fallback: the one the session
  // runs if it ran none; loaded: what the stored result of the last evaluation reads back as.
  datatype Turn = Turn(wallOut: bool, costOut: bool, step: StepEnd, evals: seq<real>, fallback: Eval,
                       loaded: Option<real>)

  function StepReason(e: StepEnd): Option<Reason> {
    match e
    case Clean => None
    case StepOverBudget => Some(CostExhausted)
    case Violated => Some(SandboxViolation)
    case CancelledByUser => Some(UserCancelled)
    case ProviderFailed => Some(ProviderFailure)
  }

  function EvalReason(e: Eval): Option<Reason> {
    match e
    case Scored(_) => None
    case OverBudget => Some(CostExhausted)
    case Failed => Some(EvalInfrastructureFailure)
  }

  // --- the loop ---

  // done: the iterate records there are; lastScore: the score of last_result; stopped: the last
  // turn's step or evaluation gave the reason itself.
  datatype State = State(trajectory: seq<Record>, done: nat, lastScore: Option<real>, reason: Option<Reason>,
                         noImprove: nat, best: real, number: nat, stopped: bool)

  function Begin(c: Config, baseline: Eval): State {
    if c.bootstrap then State([], 0, None, None, 0, 0.0, 0, false)
    else
      var met := baseline.Scored? && baseline.score >= c.threshold;
      State([], 0, if baseline.Scored? then Some(baseline.score) else None,
            if met then Some(ThresholdMet) else EvalReason(baseline),
            0, if baseline.Scored? then baseline.score else 0.0, 1, false)
  }

  function ScoreAfter(turn: Turn): Option<real> {
    if turn.evals != [] then Some(turn.evals[|turn.evals| - 1])
    else if turn.step.Clean? && turn.fallback.Scored? then Some(turn.fallback.score)
    else None
  }

  function TurnReason(turn: Turn): Option<Reason> {
    if !turn.step.Clean? then StepReason(turn.step)
    else if turn.evals == [] then EvalReason(turn.fallback)
    else None
  }

  function KindOf(c: Config, s: State): Kind {
    if c.bootstrap && s.number == 0 then Bootstrap else Iterate
  }

  function NewRecord(c: Config, s: State, turn: Turn): Record {
    var after := ScoreAfter(turn);
    Record(s.number, KindOf(c, s), s.lastScore, after,
           if after.Some? && s.lastScore.Some? then Some(after.value - s.lastScore.value) else None)
  }

  predicate Improved(r: Record) {
    r.delta.Some? && r.delta.value > 0.000000001
  }

  // The record is appended and the running values follow it.
  function Take(c: Config, s: State, turn: Turn): State {
    var r := NewRecord(c, s, turn);
    s.(trajectory := s.trajectory + [r], done := s.done + if r.kind.Iterate? then 1 else 0,
       lastScore := if r.after.Some? then turn.loaded else s.lastScore,
       best := if r.after.Some? && r.after.value > s.best then r.after.value else s.best)
  }

  // What the loop makes of a record: whether it goes on, and the run of failures to improve.
  datatype Verdict = Verdict(reason: Option<Reason>, noImprove: nat)

  function VerdictOn(c: Config, r: Record, stop: Option<Reason>, noImprove: nat): Verdict {
    if stop.Some? then Verdict(stop, noImprove)
    else if r.after.Some? && r.after.value >= c.threshold then Verdict(Some(ThresholdMet), noImprove)
    else
      var n := if r.kind.Bootstrap? then noImprove else if Improved(r) then 0 else noImprove + 1;
      Verdict(if r.kind.Iterate? && n >= c.noImprovementAfter then Some(Plateau) else None, n)
  }

  function Judge(c: Config, s: State, r: Record, stop: Option<Reason>): State {
    var v := VerdictOn(c, r, stop, s.noImprove);
    s.(reason := v.reason, noImprove := v.noImprove, stopped := stop.Some?,
       number := if v.reason.Some? then s.number else s.number + 1)
  }

  function Advance(c: Config, s: State, turn: Turn): State {
    if KindOf(c, s).Iterate? && s.done >= c.maxIter then s.(reason := Some(MaxIter))
    else if turn.wallOut then s.(reason := Some(WallTimeExhausted))
    else if turn.costOut then s.(reason := Some(CostExhausted))
    else Judge(c, Take(c, s, turn), NewRecord(c, s, turn), TurnReason(turn))
  }

  // The turns the loop can still take.
  function Fuel(c: Config, s: State): nat {
    if s.reason.Some? then 0
    else (if KindOf(c, s).Bootstrap? then 1 else 0) + (if s.done <= c.maxIter then c.maxIter - s.done else 0) + 1
  }

  lemma AdvanceUsesFuel(c: Config, s: State, turn: Turn)
    requires s.reason.None?
    ensures Fuel(c, Advance(c, s, turn)) < Fuel(c, s)
  {
  }

  function Loop(c: Config, s: State, env: nat -> Turn): State
    decreases Fuel(c, s)
  {
    if s.reason.Some? then s
    else
      AdvanceUsesFuel(c, s, env(|s.trajectory|));
      Loop(c, Advance(c, s, env(|s.trajectory|)), env)
  }

  lemma LoopStep(c: Config, s: State, env: nat -> Turn)
    requires s.reason.None?
    ensures var t := Advance(c, s, env(|s.trajectory|)); Loop(c, s, env) == Loop(c, t, env) && Fuel(c, t) < Fuel(c, s)
  {
    AdvanceUsesFuel(c, s, env(|s.trajectory|));
  }

  lemma AdvanceTakes(c: Config, s: State, turn: Turn)
    requires KindOf(c, s).Iterate? ==> s.done < c.maxIter
    requires !turn.wallOut && !turn.costOut
    ensures Advance(c, s, turn) == Judge(c, Take(c, s, turn), NewRecord(c, s, turn), TurnReason(turn))
  {
  }

  function Run(c: Config, baseline: Eval, env: nat -> Turn): State {
    Loop(c, Begin(c, baseline), env)
  }

  // --- the result ---

  function LastScoreOf(t: seq<Record>, lastScore: Option<real>): real {
    if t != [] && t[|t| - 1].after.Some? then t[|t| - 1].after.value
    else if lastScore.Some? then lastScore.value
    else 0.0
  }

  function FinalScore(s: State): real {
    LastScoreOf(s.trajectory, s.lastScore)
  }

  datatype ForgeResult = ForgeResult(finalScore: real, bestScore: real, thresholdMet: bool, iterations: nat,
                                     reason: Reason, trajectory: seq<Record>)

  function ResultOf(s: State): ForgeResult
    requires s.reason.Some?
  {
    ForgeResult(FinalScore(s), if FinalScore(s) > s.best then FinalScore(s) else s.best,
                s.reason.value == ThresholdMet, s.done, s.reason.value, s.trajectory)
  }

  method RunForge(c: Config, baseline: Eval, env: nat -> Turn) returns (result: ForgeResult)
    ensures Run(c, baseline, env).reason.Some? && result == ResultOf(Run(c, baseline, env))
  {
    var trajectory: seq<Record> := [];
    var reason, lastScore, best := Baseline(c, baseline);
    var noImprove, done := 0, 0;
    ghost var s := Begin(c, baseline);
    var number := if c.bootstrap then 0 else 1;
    while reason.None?
      invariant trajectory == s.trajectory && lastScore == s.lastScore && reason == s.reason && number == s.number
      invariant noImprove == s.noImprove && best == s.best && done == s.done
      invariant Loop(c, s, env) == Run(c, baseline, env)
      decreases Fuel(c, s)
    {
      var turn := env(|trajectory|);
      LoopStep(c, s, env);
      ghost var before := s;
      s := Advance(c, s, turn);
      var kind := if c.bootstrap && number == 0 then Bootstrap else Iterate;
      if kind.Iterate? && done >= c.maxIter {
        reason := Some(MaxIter);
        break;
      }
      if turn.wallOut {
        reason := Some(WallTimeExhausted);
        break;
      }
      if turn.costOut {
        reason := Some(CostExhausted);
        break;
      }
      var record, stop := OneIteration(kind, number, lastScore, turn);
      AdvanceTakes(c, before, turn);
      trajectory := trajectory + [record];
      if record.after.Some? {
        lastScore := turn.loaded;
        best := if record.after.value > best then record.after.value else best;
      }
      done := done + if kind.Iterate? then 1 else 0;
      reason, noImprove := JudgeRecord(c, record, stop, noImprove);
      if reason.None? {
        number := number + 1;
      }
    }
    var final := LastScoreOf(trajectory, lastScore);
    result := ForgeResult(final, if final > best then final else best, reason.value == ThresholdMet, done,
                          reason.value, trajectory);
  }

  // The evaluation before the loop, which a bootstrap does without.
  method Baseline(c: Config, baseline: Eval) returns (reason: Option<Reason>, lastScore: Option<real>, best: real)
    ensures var s := Begin(c, baseline); reason == s.reason && lastScore == s.lastScore && best == s.best
  {
    reason, lastScore, best := None, None, 0.0;
    if !c.bootstrap {
      reason := EvalReason(baseline);
      if baseline.Scored? {
        lastScore, best := Some(baseline.score), baseline.score;
        if baseline.score >= c.threshold {
          reason := Some(ThresholdMet);
        }
      }
    }
  }

  method JudgeRecord(c: Config, record: Record, stop: Option<Reason>, failures: nat)
    returns (reason: Option<Reason>, noImprove: nat)
    ensures Verdict(reason, noImprove) == VerdictOn(c, record, stop, failures)
  {
    noImprove := failures;
    if stop.Some? {
      return stop, noImprove;
    }
    if record.after.Some? && record.after.value >= c.threshold {
      return Some(ThresholdMet), noImprove;
    }
    if record.kind.Iterate? {
      noImprove := if Improved(record) then 0 else noImprove + 1;
      if noImprove >= c.noImprovementAfter {
        return Some(Plateau), noImprove;
      }
    }
    return None, noImprove;
  }

  // _one_iteration: the record and the reason, if the turn gives one.
  method OneIteration(kind: Kind, number: nat, lastScore: Option<real>, turn: Turn)
    returns (record: Record, reason: Option<Reason>)
    ensures reason == TurnReason(turn)
    ensures record == Record(number, kind, lastScore, ScoreAfter(turn),
                             if ScoreAfter(turn).Some? && lastScore.Some?
                             then Some(ScoreAfter(turn).value - lastScore.value) else None)
  {
    reason := StepReason(turn.step);
    var after: Option<real> := None;
    if turn.evals != [] {
      after := Some(turn.evals[|turn.evals| - 1]);
    } else if reason.None? {
      match turn.fallback {
        case Scored(score) => after := Some(score);
        case OverBudget => reason := Some(CostExhausted);
        case Failed => reason := Some(EvalInfrastructureFailure);
      }
    }
    var delta := if after.Some? && lastScore.Some? then Some(after.value - lastScore.value) else None;
    record := Record(number, kind, lastScore, after, delta);
  }

  // --- what every run ends with ---

  // Below the threshold, and not the end of the run.
  predicate Short(c: Config, r: Record) {
    r.after.Some? && r.after.value < c.threshold
  }

  // How many records are iterate records.
  function Iterates(t: seq<Record>): nat {
    if t == [] then 0 else Iterates(t[..|t| - 1]) + if t[|t| - 1].kind.Iterate? then 1 else 0
  }

  lemma IteratesSnoc(t: seq<Record>, r: Record)
    ensures Iterates(t + [r]) == Iterates(t) + if r.kind.Iterate? then 1 else 0
  {
    assert (t + [r])[..|t|] == t;
  }

  // Iterate records at the end that did not improve.
  function Stale(t: seq<Record>): nat {
    if t == [] || t[|t| - 1].kind.Bootstrap? || Improved(t[|t| - 1]) then 0 else 1 + Stale(t[..|t| - 1])
  }

  // One turn either stops the run at once or appends a record and judges it.
  lemma AdvanceIs(c: Config, s: State, turn: Turn)
    ensures Stops(c, s, Advance(c, s, turn)) || Appends(c, s, turn, Advance(c, s, turn))
  {
  }

  ghost predicate Stops(c: Config, s: State, t: State) {
    && t == s.(reason := t.reason)
    && (t.reason == Some(WallTimeExhausted) || t.reason == Some(CostExhausted)
        || (t.reason == Some(MaxIter) && KindOf(c, s).Iterate? && s.done >= c.maxIter))
  }

  ghost predicate Appends(c: Config, s: State, turn: Turn, t: State) {
    var r := NewRecord(c, s, turn);
    var noImprove := if r.kind.Bootstrap? then s.noImprove else if Improved(r) then 0 else s.noImprove + 1;
    && (r.kind.Iterate? ==> s.done < c.maxIter)
    && t.trajectory == s.trajectory + [r] && t.done == s.done + (if r.kind.Iterate? then 1 else 0)
    && t.lastScore == (if r.after.Some? then turn.loaded else s.lastScore)
    && t.best == (if r.after.Some? && r.after.value > s.best then r.after.value else s.best)
    && t.stopped == TurnReason(turn).Some?
    && if TurnReason(turn).Some? then t.reason == TurnReason(turn)
       else
         && r.after.Some?
         && if r.after.value >= c.threshold then t.reason == Some(ThresholdMet)
            else t.noImprove == noImprove
                 && if r.kind.Iterate? && noImprove >= c.noImprovementAfter then t.reason == Some(Plateau)
                    else t.reason.None? && t.number == s.number + 1
  }

  ghost predicate ShapeOf(c: Config, t: seq<Record>) {
    && (forall i :: 0 <= i < |t| ==> (t[i].kind.Bootstrap? <==> c.bootstrap && i == 0))
    && (forall i :: 0 <= i < |t| ==> t[i].number == i + if c.bootstrap then 0 else 1)
    && (forall i :: 0 <= i < |t| - 1 ==> Short(c, t[i]))
  }

  ghost predicate Shape(c: Config, s: State) {
    var t := s.trajectory;
    && ShapeOf(c, t)
    && s.done == Iterates(t) == |t| - (if c.bootstrap && t != [] then 1 else 0) <= c.maxIter
    && (s.reason.None? ==> s.number == |t| + if c.bootstrap then 0 else 1)
    && (s.reason.None? && t != [] ==> Short(c, t[|t| - 1]))
  }

  lemma ShapeSnoc(c: Config, t: seq<Record>, r: Record)
    requires ShapeOf(c, t) && (t != [] ==> Short(c, t[|t| - 1])) && (r.kind.Bootstrap? <==> c.bootstrap && t == [])
    requires r.number == |t| + if c.bootstrap then 0 else 1
    ensures ShapeOf(c, t + [r])
  {
  }

  ghost predicate Reasons(c: Config, s: State) {
    var t := s.trajectory;
    && (s.stopped ==>
          t != [] && s.reason.Some? && s.reason.value !in {ThresholdMet, MaxIter, Plateau, WallTimeExhausted})
    && (s.reason == Some(ThresholdMet) ==>
          if t == [] then s.lastScore.Some? && s.lastScore.value >= c.threshold
          else t[|t| - 1].after.Some? && t[|t| - 1].after.value >= c.threshold)
    && (s.reason.None? ==> s.noImprove == Stale(t) < c.noImprovementAfter)
    && (s.reason == Some(Plateau) ==> t != [] && Stale(t) == c.noImprovementAfter && Short(c, t[|t| - 1]))
    && (s.reason == Some(MaxIter) ==> Iterates(t) == c.maxIter && Stale(t) < c.noImprovementAfter
                                      && (t != [] ==> Short(c, t[|t| - 1])))
    && (t != [] && !s.stopped && s.reason.Some? && s.reason != Some(ThresholdMet) ==> Short(c, t[|t| - 1]))
  }

  ghost predicate Bounded(s: State, floor: real) {
    && floor <= s.best
    && (forall i :: 0 <= i < |s.trajectory| && s.trajectory[i].after.Some? ==> s.trajectory[i].after.value <= s.best)
    && (s.best == floor || exists i :: 0 <= i < |s.trajectory| && s.trajectory[i].after == Some(s.best))
  }

  lemma ShapeStep(c: Config, s: State, turn: Turn)
    requires ValidConfig(c) && s.reason.None? && Shape(c, s)
    ensures Shape(c, Advance(c, s, turn))
  {
    AdvanceIs(c, s, turn);
    var t := Advance(c, s, turn);
    if Appends(c, s, turn, t) {
      ShapeSnoc(c, s.trajectory, NewRecord(c, s, turn));
      IteratesSnoc(s.trajectory, NewRecord(c, s, turn));
    }
  }

  lemma ReasonsStep(c: Config, s: State, turn: Turn)
    requires ValidConfig(c) && s.reason.None? && Shape(c, s) && Reasons(c, s)
    ensures Reasons(c, Advance(c, s, turn))
  {
    AdvanceIs(c, s, turn);
    var t := Advance(c, s, turn);
    if Appends(c, s, turn, t) {
      ReasonsAppend(c, s, turn, t, NewRecord(c, s, turn));
    } else {
      ReasonsStop(c, s, t);
    }
  }

  lemma ReasonsStop(c: Config, s: State, t: State)
    requires ValidConfig(c) && s.reason.None? && Shape(c, s) && Reasons(c, s) && Stops(c, s, t)
    ensures Reasons(c, t)
  {
  }

  lemma ReasonsAppend(c: Config, s: State, turn: Turn, t: State, r: Record)
    requires ValidConfig(c) && s.reason.None? && s.noImprove == Stale(s.trajectory) < c.noImprovementAfter
    requires Appends(c, s, turn, t) && r == NewRecord(c, s, turn) && (r.kind.Bootstrap? ==> s.trajectory == [])
    ensures Reasons(c, t)
  {
  }

  lemma BoundedStep(c: Config, s: State, turn: Turn, floor: real)
    requires s.reason.None? && Bounded(s, floor)
    ensures Bounded(Advance(c, s, turn), floor)
  {
    AdvanceIs(c, s, turn);
    var t := Advance(c, s, turn);
    if Appends(c, s, turn, t) {
      var r := NewRecord(c, s, turn);
      assert t.trajectory[|s.trajectory|] == r;
      if s.best != floor && t.best == s.best {
        var i :| 0 <= i < |s.trajectory| && s.trajectory[i].after == Some(s.best);
        assert t.trajectory[i].after == Some(t.best);
      }
    }
  }

  lemma {:induction false} LoopKeeps(c: Config, s: State, env: nat -> Turn, floor: real)
    requires ValidConfig(c) && Shape(c, s) && Reasons(c, s) && Bounded(s, floor)
    ensures var f := Loop(c, s, env); f.reason.Some? && Shape(c, f) && Reasons(c, f) && Bounded(f, floor)
    decreases Fuel(c, s)
  {
    if s.reason.None? {
      var turn := env(|s.trajectory|);
      ShapeStep(c, s, turn);
      ReasonsStep(c, s, turn);
      BoundedStep(c, s, turn, floor);
      AdvanceUsesFuel(c, s, turn);
      LoopKeeps(c, Advance(c, s, turn), env, floor);
    }
  }

  // Every run stops with a reason, after at most one bootstrap record and max_iter iterate
  // records. All records but the last scored below the threshold. threshold_met means a final
  // score at the threshold or above; plateau that exactly the last no_improvement_after records
  // failed to improve, and max_iter that as many iterations were made without either.
  lemma EveryRunEnds(c: Config, baseline: Eval, env: nat -> Turn)
    requires ValidConfig(c)
    ensures var s := Run(c, baseline, env); var t := s.trajectory;
            && s.reason.Some?
            && (forall i :: 0 <= i < |t| ==> (t[i].kind.Bootstrap? <==> c.bootstrap && i == 0))
            && (forall i :: 0 <= i < |t| ==> t[i].number == i + if c.bootstrap then 0 else 1)
            && ResultOf(s).iterations == Iterates(t) <= c.maxIter && |t| <= c.maxIter + (if c.bootstrap then 1 else 0)
            && (forall i :: 0 <= i < |t| - 1 ==> t[i].after.Some? && t[i].after.value < c.threshold)
            && (s.reason == Some(ThresholdMet) ==> FinalScore(s) >= c.threshold)
            && (s.reason == Some(Plateau) ==> Stale(t) == c.noImprovementAfter)
            && (s.reason == Some(MaxIter) ==> Iterates(t) == c.maxIter && Stale(t) < c.noImprovementAfter)
  {
    LoopKeeps(c, Begin(c, baseline), env, Begin(c, baseline).best);
    ReasonsMean(c, Run(c, baseline, env));
  }

  lemma ReasonsMean(c: Config, s: State)
    requires Shape(c, s) && Reasons(c, s)
    ensures forall i :: 0 <= i < |s.trajectory| - 1 ==> Short(c, s.trajectory[i])
    ensures s.reason == Some(ThresholdMet) ==> FinalScore(s) >= c.threshold
  {
  }

  // best_score bounds every score of the run, the final score among them, and is one of them,
  // the baseline's, or 0.
  lemma BestIsTheMaximum(c: Config, baseline: Eval, env: nat -> Turn)
    requires ValidConfig(c)
    ensures Run(c, baseline, env).reason.Some?
    ensures var r := ResultOf(Run(c, baseline, env)); var t := r.trajectory;
            var start := if !c.bootstrap && baseline.Scored? then baseline.score else 0.0;
            && start <= r.bestScore && r.finalScore <= r.bestScore
            && (forall i :: 0 <= i < |t| && t[i].after.Some? ==> t[i].after.value <= r.bestScore)
            && (r.bestScore in {start, r.finalScore} || exists i :: 0 <= i < |t| && t[i].after == Some(r.bestScore))
  {
    LoopKeeps(c, Begin(c, baseline), env, Begin(c, baseline).best);
  }

  // --- with stored results read back as they were written ---

  ghost predicate FaithfulLoads(env: nat -> Turn) {
    forall k :: ScoreAfter(env(k)).Some? ==> env(k).loaded == ScoreAfter(env(k))
  }

  function SumDeltas(t: seq<Record>): real {
    if t == [] then 0.0
    else SumDeltas(t[..|t| - 1]) + if t[|t| - 1].delta.Some? then t[|t| - 1].delta.value else 0.0
  }

  // The first score there is: the baseline, or the bootstrap's.
  function FirstScore(c: Config, baseline: Eval, t: seq<Record>): Option<real> {
    if !c.bootstrap then if baseline.Scored? then Some(baseline.score) else None
    else if t == [] then None
    else t[0].after
  }

  ghost predicate Telescopes(c: Config, baseline: Eval, s: State) {
    var t := s.trajectory;
    && s.lastScore.Some? == FirstScore(c, baseline, t).Some?
    && SumDeltas(t) == (if s.lastScore.Some? then s.lastScore.value - FirstScore(c, baseline, t).value else 0.0)
    && (s.reason.None? && !c.bootstrap ==> s.lastScore.Some?)
    && (t != [] && t[|t| - 1].after.Some? ==> s.lastScore == t[|t| - 1].after)
    && (t != [] && t[|t| - 1].after.None? ==> s.lastScore == t[|t| - 1].before)
  }

  lemma TelescopeStep(c: Config, baseline: Eval, s: State, turn: Turn)
    requires s.reason.None? && Shape(c, s) && Telescopes(c, baseline, s)
    requires ScoreAfter(turn).Some? ==> turn.loaded == ScoreAfter(turn)
    ensures Telescopes(c, baseline, Advance(c, s, turn))
  {
    AdvanceIs(c, s, turn);
    var t := Advance(c, s, turn);
    if Appends(c, s, turn, t) {
      var r := NewRecord(c, s, turn);
      assert t.trajectory[..|s.trajectory|] == s.trajectory && t.trajectory[|s.trajectory|] == r;
      FirstScoreKept(c, baseline, s, r);
    }
  }

  lemma FirstScoreKept(c: Config, baseline: Eval, s: State, r: Record)
    ensures s.trajectory != [] || !c.bootstrap ==>
            FirstScore(c, baseline, s.trajectory + [r]) == FirstScore(c, baseline, s.trajectory)
    ensures s.trajectory == [] && c.bootstrap ==> FirstScore(c, baseline, s.trajectory + [r]) == r.after
  {
  }

  lemma {:induction false} LoopTelescopes(c: Config, baseline: Eval, s: State, env: nat -> Turn)
    requires ValidConfig(c) && FaithfulLoads(env) && Shape(c, s) && Telescopes(c, baseline, s)
    ensures Telescopes(c, baseline, Loop(c, s, env))
    decreases Fuel(c, s)
  {
    if s.reason.None? {
      var turn := env(|s.trajectory|);
      ShapeStep(c, s, turn);
      TelescopeStep(c, baseline, s, turn);
      AdvanceUsesFuel(c, s, turn);
      LoopTelescopes(c, baseline, Advance(c, s, turn), env);
    }
  }

  // The recorded deltas add up to the final score less the first one.
  lemma DeltasTelescope(c: Config, baseline: Eval, env: nat -> Turn)
    requires ValidConfig(c) && FaithfulLoads(env)
    ensures var s := Run(c, baseline, env); var first := FirstScore(c, baseline, s.trajectory);
            first.Some? ==> SumDeltas(s.trajectory) == FinalScore(s) - first.value
  {
    LoopTelescopes(c, baseline, Begin(c, baseline), env);
  }

  // --- a passing score and a threshold not met ---

  // The score turn k starts from, the turns before having been scored.
  function Prior(c: Config, baseline: Eval, env: nat -> Turn, k: nat): Option<real> {
    if k > 0 then env(k - 1).loaded
    else if !c.bootstrap && baseline.Scored? then Some(baseline.score)
    else None
  }

  predicate Improves(c: Config, baseline: Eval, env: nat -> Turn, k: nat) {
    var before, after := Prior(c, baseline, env, k), ScoreAfter(env(k));
    before.Some? && after.Some? && after.value - before.value > 0.000000001
  }

  // How many turns right before turn k did not improve.
  function Unimproved(c: Config, baseline: Eval, env: nat -> Turn, k: nat): nat {
    if k == 0 || (c.bootstrap && k == 1) || Improves(c, baseline, env, k - 1) then 0
    else 1 + Unimproved(c, baseline, env, k - 1)
  }

  // There is time and money for turn k, its step ends cleanly, it scores below the threshold, and
  // no plateau is reached.
  predicate GoesOn(c: Config, baseline: Eval, env: nat -> Turn, k: nat) {
    var turn := env(k);
    && !turn.wallOut && !turn.costOut && turn.step.Clean?
    && ScoreAfter(turn).Some? && ScoreAfter(turn).value < c.threshold
    && Unimproved(c, baseline, env, k + 1) < c.noImprovementAfter
  }

  predicate Opens(c: Config, baseline: Eval) {
    c.bootstrap || (baseline.Scored? && baseline.score < c.threshold)
  }

  predicate WithinMaxIter(c: Config, k: nat) {
    if c.bootstrap then k <= c.maxIter else k < c.maxIter
  }

  // Turn k takes place: all before it went on, and none of the caps is reached.
  ghost predicate TakesPlace(c: Config, baseline: Eval, env: nat -> Turn, k: nat) {
    && Opens(c, baseline) && (forall j: nat :: j < k ==> GoesOn(c, baseline, env, j))
    && WithinMaxIter(c, k) && !env(k).wallOut && !env(k).costOut
  }

  // The score reported if turn k is the last.
  function Shown(c: Config, baseline: Eval, env: nat -> Turn, k: nat): real {
    var before, after := Prior(c, baseline, env, k), ScoreAfter(env(k));
    if after.Some? then after.value else if before.Some? then before.value else 0.0
  }

  // Turn k takes place, is broken off by its step or its evaluation, and leaves a passing score.
  ghost predicate BreaksOffPassing(c: Config, baseline: Eval, env: nat -> Turn, k: nat) {
    TakesPlace(c, baseline, env, k) && TurnReason(env(k)).Some? && Shown(c, baseline, env, k) >= c.threshold
  }

  // There is no baseline, and no bootstrap turn.
  predicate NothingEvaluated(c: Config, baseline: Eval, env: nat -> Turn) {
    if c.bootstrap then env(0).wallOut || env(0).costOut else !baseline.Scored?
  }

  predicate PassesUnmet(c: Config, s: State)
    requires s.reason.Some?
  {
    ResultOf(s).finalScore >= c.threshold && !ResultOf(s).thresholdMet
  }

  // The loop stands before turn k.
  ghost predicate AtTurn(c: Config, baseline: Eval, env: nat -> Turn, s: State, k: nat) {
    && s.reason.None? && |s.trajectory| == k && s.number == k + (if c.bootstrap then 0 else 1)
    && s.done == (if c.bootstrap && k > 0 then k - 1 else k)
    && s.lastScore == Prior(c, baseline, env, k) && s.noImprove == Unimproved(c, baseline, env, k)
    && Opens(c, baseline) && (forall j: nat :: j < k ==> GoesOn(c, baseline, env, j))
    && (k > 0 ==> Short(c, s.trajectory[k - 1]))
  }

  lemma TurnGoesOn(c: Config, baseline: Eval, env: nat -> Turn, s: State, k: nat)
    requires ValidConfig(c) && AtTurn(c, baseline, env, s, k)
    requires WithinMaxIter(c, k) && GoesOn(c, baseline, env, k)
    ensures AtTurn(c, baseline, env, Advance(c, s, env(k)), k + 1)
  {
    AdvanceIs(c, s, env(k));
    assert Appends(c, s, env(k), Advance(c, s, env(k)));
    assert Improved(NewRecord(c, s, env(k))) <==> Improves(c, baseline, env, k);
  }

  lemma TurnEnds(c: Config, baseline: Eval, env: nat -> Turn, s: State, k: nat)
    requires ValidConfig(c) && AtTurn(c, baseline, env, s, k)
    requires !(WithinMaxIter(c, k) && GoesOn(c, baseline, env, k))
    ensures var t := Advance(c, s, env(k));
            && t.reason.Some?
            && (PassesUnmet(c, t)
                <==> BreaksOffPassing(c, baseline, env, k)
                     || (k == 0 && c.bootstrap && NothingEvaluated(c, baseline, env) && c.threshold <= 0.0))
  {
    AdvanceIs(c, s, env(k));
    assert Improved(NewRecord(c, s, env(k))) <==> Improves(c, baseline, env, k);
  }

  // A turn that ends the run is the only one that can be broken off.
  lemma NoOtherBreaksOff(c: Config, baseline: Eval, env: nat -> Turn, k: nat, other: nat)
    requires forall j: nat :: j < k ==> GoesOn(c, baseline, env, j)
    requires !(WithinMaxIter(c, k) && GoesOn(c, baseline, env, k))
    requires BreaksOffPassing(c, baseline, env, other)
    ensures other == k
  {
    assert other < k ==> GoesOn(c, baseline, env, other);
    assert k < other ==> GoesOn(c, baseline, env, k);
  }

  lemma {:induction false} LoopPassesUnmet(c: Config, baseline: Eval, env: nat -> Turn, s: State, k: nat)
    requires ValidConfig(c) && AtTurn(c, baseline, env, s, k)
    ensures var f := Loop(c, s, env);
            && f.reason.Some?
            && (PassesUnmet(c, f)
                <==> (exists n: nat :: BreaksOffPassing(c, baseline, env, n))
                     || (c.bootstrap && NothingEvaluated(c, baseline, env) && c.threshold <= 0.0))
    decreases Fuel(c, s)
  {
    LoopStep(c, s, env);
    if WithinMaxIter(c, k) && GoesOn(c, baseline, env, k) {
      TurnGoesOn(c, baseline, env, s, k);
      LoopPassesUnmet(c, baseline, env, Advance(c, s, env(k)), k + 1);
    } else {
      TurnEnds(c, baseline, env, s, k);
      forall n: nat | BreaksOffPassing(c, baseline, env, n) ensures n == k {
        NoOtherBreaksOff(c, baseline, env, k, n);
      }
      assert k > 0 ==> GoesOn(c, baseline, env, 0);
    }
  }

  // A run reports a score at the threshold or above and a threshold not met exactly when a turn
  // that takes place is broken off with a passing score to show, or when nothing is evaluated and
  // the threshold is no more than the 0 reported then.
  lemma PassingScores(c: Config, baseline: Eval, env: nat -> Turn)
    requires ValidConfig(c)
    ensures Run(c, baseline, env).reason.Some?
    ensures PassesUnmet(c, Run(c, baseline, env))
            <==> (exists k: nat :: BreaksOffPassing(c, baseline, env, k))
                 || (NothingEvaluated(c, baseline, env) && c.threshold <= 0.0)
  {
    var s := Begin(c, baseline);
    if s.reason.None? {
      LoopPassesUnmet(c, baseline, env, s, 0);
    } else {
      assert !Opens(c, baseline);
    }
  }

  // --- which reason it is ---

  // The reason that turn k, the first not to go on, ends the run with.
  function ReasonAt(c: Config, env: nat -> Turn, k: nat): Reason {
    var turn := env(k);
    if !WithinMaxIter(c, k) then MaxIter
    else if turn.wallOut then WallTimeExhausted
    else if turn.costOut then CostExhausted
    else
      match turn.step
      case StepOverBudget => CostExhausted
      case Violated => SandboxViolation
      case CancelledByUser => UserCancelled
      case ProviderFailed => ProviderFailure
      case Clean =>
        if turn.evals == [] && turn.fallback.OverBudget? then CostExhausted
        else if turn.evals == [] && turn.fallback.Failed? then EvalInfrastructureFailure
        else if turn.evals == [] && turn.fallback.score >= c.threshold then ThresholdMet
        else if turn.evals != [] && turn.evals[|turn.evals| - 1] >= c.threshold then ThresholdMet
        else Plateau
  }

  // Turn k is the first not to go on.
  ghost predicate StopsAt(c: Config, baseline: Eval, env: nat -> Turn, k: nat) {
    && Opens(c, baseline) && (forall j: nat :: j < k ==> WithinMaxIter(c, j) && GoesOn(c, baseline, env, j))
    && !(WithinMaxIter(c, k) && GoesOn(c, baseline, env, k))
  }

  lemma TurnStops(c: Config, baseline: Eval, env: nat -> Turn, s: State, k: nat)
    requires ValidConfig(c) && AtTurn(c, baseline, env, s, k)
    requires !(WithinMaxIter(c, k) && GoesOn(c, baseline, env, k))
    ensures Advance(c, s, env(k)).reason == Some(ReasonAt(c, env, k))
  {
    AdvanceIs(c, s, env(k));
    assert Improved(NewRecord(c, s, env(k))) <==> Improves(c, baseline, env, k);
  }

  lemma {:induction false} LoopStopsAt(c: Config, baseline: Eval, env: nat -> Turn, s: State, j: nat, k: nat)
    requires ValidConfig(c) && AtTurn(c, baseline, env, s, j) && j <= k && StopsAt(c, baseline, env, k)
    ensures Loop(c, s, env).reason == Some(ReasonAt(c, env, k))
    decreases k - j
  {
    LoopStep(c, s, env);
    if j < k {
      TurnGoesOn(c, baseline, env, s, j);
      LoopStopsAt(c, baseline, env, Advance(c, s, env(j)), j + 1, k);
    } else {
      TurnStops(c, baseline, env, s, k);
    }
  }

  // A run that gets past its baseline ends with the reason of the first turn not to go on; one that
  // does not, with the baseline's.
  lemma StopReasons(c: Config, baseline: Eval, env: nat -> Turn)
    requires ValidConfig(c)
    ensures forall k: nat :: StopsAt(c, baseline, env, k) ==>
              Run(c, baseline, env).reason == Some(ReasonAt(c, env, k))
    ensures !c.bootstrap ==>
              && (baseline.OverBudget? ==> Run(c, baseline, env).reason == Some(CostExhausted))
              && (baseline.Failed? ==> Run(c, baseline, env).reason == Some(EvalInfrastructureFailure))
              && (baseline.Scored? && baseline.score >= c.threshold ==>
                    Run(c, baseline, env).reason == Some(ThresholdMet))
  {
    forall k: nat | StopsAt(c, baseline, env, k)
      ensures Run(c, baseline, env).reason == Some(ReasonAt(c, env, k))
    {
      LoopStopsAt(c, baseline, env, Begin(c, baseline), 0, k);
    }
  }

  // No evaluation gave a score: there was no baseline, or the bootstrap turn brought none.
  predicate NothingScored(c: Config, baseline: Eval, env: nat -> Turn) {
    if c.bootstrap then env(0).wallOut || env(0).costOut || ScoreAfter(env(0)).None? else !baseline.Scored?
  }

  // The step ran a passing evaluation last, and then did not end cleanly.
  predicate CutAfterPassing(c: Config, turn: Turn) {
    !turn.step.Clean? && turn.evals != [] && turn.evals[|turn.evals| - 1] >= c.threshold
  }

  // With stored results read back as they were written, such a turn is one whose step was cut
  // after a passing evaluation.
  lemma PassingScoresWhenLoaded(c: Config, baseline: Eval, env: nat -> Turn)
    requires ValidConfig(c) && FaithfulLoads(env)
    ensures Run(c, baseline, env).reason.Some?
    ensures PassesUnmet(c, Run(c, baseline, env))
            <==> (exists k: nat :: TakesPlace(c, baseline, env, k) && CutAfterPassing(c, env(k)))
                 || (NothingScored(c, baseline, env) && c.threshold <= 0.0)
  {
    PassingScores(c, baseline, env);
    forall k: nat ensures BreaksOffPassing(c, baseline, env, k)
                          <==> TakesPlace(c, baseline, env, k)
                               && (CutAfterPassing(c, env(k))
                                   || (k == 0 && c.bootstrap && ScoreAfter(env(0)).None? && c.threshold <= 0.0))
    {
      ShownWhenLoaded(c, baseline, env, k);
    }
    if c.bootstrap && !NothingEvaluated(c, baseline, env) {
      assert TakesPlace(c, baseline, env, 0);
    }
  }

  lemma ShownWhenLoaded(c: Config, baseline: Eval, env: nat -> Turn, k: nat)
    requires FaithfulLoads(env)
    ensures BreaksOffPassing(c, baseline, env, k)
            <==> TakesPlace(c, baseline, env, k)
                 && (CutAfterPassing(c, env(k))
                     || (k == 0 && c.bootstrap && ScoreAfter(env(0)).None? && c.threshold <= 0.0))
  {
    if TakesPlace(c, baseline, env, k) && k > 0 {
      assert GoesOn(c, baseline, env, k - 1);
      assert ScoreAfter(env(k - 1)).Some?;
    }
  }

  const ONE_TURN := Config(false, 0.9, 5, 3)

  // A step that runs a passing evaluation and then exceeds the cost budget: the run reports a
  // score above the threshold and a threshold not met.
  lemma PassingRunNotMet(env: nat -> Turn)
    requires env(0) == Turn(false, false, StepOverBudget, [0.95], Failed, Some(0.95))
    ensures var s := Run(ONE_TURN, Scored(0.5), env);
            s.reason == Some(CostExhausted) && FinalScore(s) == 0.95 && !ResultOf(s).thresholdMet
  {
  }
}
