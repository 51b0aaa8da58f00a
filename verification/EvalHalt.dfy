// eval/harness.py, `guarded` in run_eval: the cases of an evaluation share a semaphore, a cost
// total and a halt flag; once the total exceeds its cap the remaining cases are skipped.
module EvalHalt {
  import opened Events
  import opened Multiples

  datatype Config = Config(maxParallel: nat, maxTotal: Option<real>, marked: seq<bool>)

  datatype Phase = Waiting | Running | Finished(cost: Option<real>) | MarkedSkip | HaltSkip

  datatype State = State(phase: seq<Phase>, permits: int, total: real, halted: bool)

  function Init(c: Config): State {
    State(seq(|c.marked|, _ => Waiting), c.maxParallel, 0.0, false)
  }

  // The semaphore lets the case in; it is skipped or its run begins, without a suspension.
  function Enter(c: Config, s: State, i: nat): State {
    if i >= |s.phase| || i >= |c.marked| || !s.phase[i].Waiting? || s.permits <= 0 then s
    else if c.marked[i] then s.(phase := s.phase[i := MarkedSkip])
    else if s.halted then s.(phase := s.phase[i := HaltSkip])
    else s.(phase := s.phase[i := Running], permits := s.permits - 1)
  }

  predicate Exceeds(c: Config, total: real) {
    c.maxTotal.Some? && total > c.maxTotal.value
  }

  function Finish(c: Config, s: State, i: nat, cost: Option<real>): State {
    if i >= |s.phase| || !s.phase[i].Running? then s
    else
      var total := s.total + if cost.Some? then cost.value else 0.0;
      State(s.phase[i := Finished(cost)], s.permits + 1, total, s.halted || (cost.Some? && Exceeds(c, total)))
  }

  datatype Action = DoEnter(i: nat) | DoFinish(i: nat, cost: Option<real>)

  function Apply(c: Config, s: State, a: Action): State {
    match a
    case DoEnter(i) => Enter(c, s, i)
    case DoFinish(i, cost) => Finish(c, s, i, cost)
  }

  function Exec(c: Config, s: State, actions: seq<Action>): State {
    if actions == [] then s else Apply(c, Exec(c, s, actions[..|actions| - 1]), actions[|actions| - 1])
  }

  class EvalRun {
    const config: Config
    var phase: seq<Phase>
    var permits: int
    var totalCost: real
    var halted: bool

    constructor (config: Config)
      ensures this.config == config && View() == Init(config)
    {
      this.config := config;
      phase, permits, totalCost, halted := seq(|config.marked|, _ => Waiting), config.maxParallel, 0.0, false;
    }

    function View(): State
      reads this
    {
      State(phase, permits, totalCost, halted)
    }

    method Begin(i: nat)
      requires i < |phase| == |config.marked| && phase[i].Waiting? && permits > 0
      modifies this
      ensures View() == Enter(config, old(View()), i)
    {
      if config.marked[i] {
        phase := phase[i := MarkedSkip];
        return;
      }
      if halted {
        phase := phase[i := HaltSkip];
        return;
      }
      phase, permits := phase[i := Running], permits - 1;
    }

    method AfterRun(i: nat, cost: Option<real>)
      requires i < |phase| && phase[i].Running?
      modifies this
      ensures View() == Finish(config, old(View()), i, cost)
    {
      phase, permits := phase[i := Finished(cost)], permits + 1;
      if cost.Some? {
        totalCost := totalCost + cost.value;
        if config.maxTotal.Some? && totalCost > config.maxTotal.value {
          halted := true;
        }
      }
    }
  }

  // --- every run ---

  function RunningCases(phase: seq<Phase>): nat {
    if phase == [] then 0 else (if phase[0].Running? then 1 else 0) + RunningCases(phase[1..])
  }

  function Spent(phase: seq<Phase>): real {
    if phase == [] then 0.0
    else (if phase[0].Finished? && phase[0].cost.Some? then phase[0].cost.value else 0.0) + Spent(phase[1..])
  }

  lemma {:induction false} OneChanges(phase: seq<Phase>, i: nat, p: Phase)
    requires i < |phase| && !phase[i].Finished?
    ensures RunningCases(phase[i := p])
            == RunningCases(phase) - (if phase[i].Running? then 1 else 0) + if p.Running? then 1 else 0
    ensures Spent(phase[i := p]) == Spent(phase) + if p.Finished? && p.cost.Some? then p.cost.value else 0.0
  {
    if i == 0 {
      assert phase[0 := p][1..] == phase[1..];
    } else {
      assert phase[i := p][1..] == phase[1..][i - 1 := p];
      OneChanges(phase[1..], i - 1, p);
    }
  }

  predicate Sane(c: Config) {
    c.maxTotal.Some? ==> c.maxTotal.value >= 0.0
  }

  predicate Costs(a: Action, most: real) {
    a.DoFinish? && a.cost.Some? ==> 0.0 <= a.cost.value <= most
  }

  ghost predicate Inv(c: Config, s: State, most: real) {
    && |s.phase| == |c.marked| && s.permits + RunningCases(s.phase) == c.maxParallel && s.permits >= 0
    && s.total == Spent(s.phase) >= 0.0
    && (s.halted <==> Exceeds(c, s.total))
    && (s.halted ==> s.total <= c.maxTotal.value + Times(s.permits, most))
    && forall i :: 0 <= i < |s.phase| ==>
         (s.phase[i].MarkedSkip? ==> c.marked[i]) && (s.phase[i].HaltSkip? ==> s.halted && !c.marked[i])
         && (s.phase[i].Running? || s.phase[i].Finished? ==> !c.marked[i])
  }

  lemma EnterKeepsInv(c: Config, s: State, i: nat, most: real)
    requires Inv(c, s, most) && most >= 0.0
    ensures Inv(c, Enter(c, s, i), most)
  {
    if Enter(c, s, i) != s {
      OneChanges(s.phase, i, Enter(c, s, i).phase[i]);
    }
  }

  lemma FinishKeepsInv(c: Config, s: State, i: nat, cost: Option<real>, most: real)
    requires Inv(c, s, most) && most >= 0.0 && Costs(DoFinish(i, cost), most)
    ensures Inv(c, Finish(c, s, i, cost), most)
  {
    if Finish(c, s, i, cost) != s {
      OneChanges(s.phase, i, Finished(cost));
      TimesGrows(0, s.permits, most);
    }
  }

  lemma StepKeepsInv(c: Config, s: State, a: Action, most: real)
    requires most >= 0.0 && Inv(c, s, most) && Costs(a, most)
    ensures Inv(c, Apply(c, s, a), most)
  {
    match a
    case DoEnter(i) => EnterKeepsInv(c, s, i, most);
    case DoFinish(i, cost) => FinishKeepsInv(c, s, i, cost, most);
  }

  lemma {:induction false} NoneRunning(n: nat)
    ensures var phase := seq(n, _ => Waiting); RunningCases(phase) == 0 && Spent(phase) == 0.0
  {
    if n > 0 {
      assert seq(n, _ => Waiting)[1..] == seq(n - 1, _ => Waiting);
      NoneRunning(n - 1);
    }
  }

  lemma {:induction false} RunKeepsInv(c: Config, actions: seq<Action>, most: real)
    requires Sane(c) && most >= 0.0 && forall k :: 0 <= k < |actions| ==> Costs(actions[k], most)
    ensures Inv(c, Exec(c, Init(c), actions), most)
  {
    if actions == [] {
      NoneRunning(|c.marked|);
    } else {
      RunKeepsInv(c, actions[..|actions| - 1], most);
      StepKeepsInv(c, Exec(c, Init(c), actions[..|actions| - 1]), actions[|actions| - 1], most);
    }
  }

  // In every state the total is what the finished cases cost, the run is halted if and only if
  // that exceeds the cap, and it exceeds it by at most max_parallel cases' costs. A case is
  // skipped only if it is marked or the run is halted, and a marked case never runs.
  lemma HaltsExactlyOverTheCap(c: Config, actions: seq<Action>, most: real)
    requires Sane(c) && most >= 0.0 && forall k :: 0 <= k < |actions| ==> Costs(actions[k], most)
    ensures var s := Exec(c, Init(c), actions);
            && |s.phase| == |c.marked| && s.total == Spent(s.phase)
            && (s.halted <==> c.maxTotal.Some? && s.total > c.maxTotal.value)
            && (c.maxTotal.Some? ==> s.total <= c.maxTotal.value + Times(c.maxParallel, most))
            && RunningCases(s.phase) <= c.maxParallel
            && forall i :: 0 <= i < |s.phase| ==>
                 (s.phase[i].HaltSkip? ==> s.halted) && (c.marked[i] ==> s.phase[i].Waiting? || s.phase[i].MarkedSkip?)
  {
    RunKeepsInv(c, actions, most);
    TimesGrows(Exec(c, Init(c), actions).permits, c.maxParallel, most);
  }

  // A case let in is decided at once: marked cases are skipped, all are once the run is halted, and
  // any other starts; a case that ends frees its place.
  lemma CasesMoveOn(c: Config, s: State, i: nat, cost: Option<real>)
    requires i < |s.phase| == |c.marked|
    ensures s.phase[i].Waiting? && s.permits > 0 ==>
              var t := Enter(c, s, i);
              && t.phase == s.phase[i := if c.marked[i] then MarkedSkip else if s.halted then HaltSkip else Running]
              && t.permits == s.permits - if !c.marked[i] && !s.halted then 1 else 0
    ensures s.phase[i].Running? ==>
              Finish(c, s, i, cost).phase == s.phase[i := Finished(cost)]
              && Finish(c, s, i, cost).permits == s.permits + 1
  {
  }

  // Once halted, no case starts any more: one that was waiting is still waiting or skipped.
  lemma {:induction false} NoStartAfterHalt(c: Config, s: State, later: seq<Action>, i: nat)
    requires s.halted && i < |s.phase| && s.phase[i].Waiting?
    ensures var t := Exec(c, s, later);
            t.halted && |t.phase| == |s.phase|
            && (t.phase[i].Waiting? || t.phase[i].MarkedSkip? || t.phase[i].HaltSkip?)
  {
    if later != [] {
      NoStartAfterHalt(c, s, later[..|later| - 1], i);
    }
  }
}
