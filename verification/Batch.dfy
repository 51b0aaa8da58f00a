// api/batch.py: many item coroutines sharing one semaphore, one cost counter, two trip
// flags and the outcome counters. Between two suspension points an item runs alone; a send
// into the unbounded frame buffer suspends nobody.
module Batch {
  import opened Events

  // --- values ---

  datatype Policy = Policy(maxParallel: nat, maxCost: Option<real>, stopOnBudget: bool, stopOnFailureRate: Option<real>)

  datatype Reason = BatchBudgetExceeded | BatchFailureRateTripped | WorkerDrain | Timeout

  datatype Outcome = Succeeded | Failed | Cancelled

  // The frames the client receives; Forwarded is a run event tagged with its item.
  datatype Frame =
    | BudgetExceeded
    | FailureRateTripped
    | SyntheticCancel(item: nat, reason: Reason)
    | Forwarded(item: nat, terminal: bool)

  // What an item has counted of itself: nothing, its outcome, or its completion too.
  datatype Progress = Uncounted | OutcomeCounted | Completed

  // Where the coroutine of one item stands. Admitting and later phases but the last ones
  // hold a permit of the limiter.
  datatype Phase =
    | Queued                 // waiting for the limiter
    | Admitting              // past the flag check, waiting for can_accept()
    | Running                // its run is started and its events are being forwarded
    | TimedOut               // counted as cancelled, its frame not yet sent
    | Done(outcome: Outcome) // returned, counted
    | Skipped                // returned uncounted: the batch was aborted before it began
    | Torn(at: Progress)     // unwound in an aborted batch

  datatype State = State(
    phase: seq<Phase>, permits: int, inflight: set<nat>,
    cost: real, budgetExceeded: bool, failureTripped: bool,
    succeeded: nat, failed: nat, cancelled: nat, completed: nat,
    frames: seq<Frame>, aborted: bool, history: History)

  // History only: what each item's run cost, whether the breach send was cut short, where the
  // breach frame is, where the items stood when the budget tripped, and how many runs started
  // once a flag was up.
  datatype History = History(itemCost: seq<real>, cut: bool, breachAt: nat, atBreach: seq<Phase>, startsAfter: nat)

  function Init(policy: Policy, n: nat): State {
    State(seq(n, _ => Queued), policy.maxParallel, {}, 0.0, false, false, 0, 0, 0, 0, [], false,
          History(seq(n, _ => 0.0), false, 0, [], 0))
  }

  // --- _BatchState ---

  predicate OverBudget(policy: Policy, cost: real) {
    policy.maxCost.Some? && cost >= policy.maxCost.value
  }

  predicate FailureRateHit(policy: Policy, failed: nat, completed: nat) {
    policy.stopOnFailureRate.Some? && completed != 0
    && failed as real / completed as real >= policy.stopOnFailureRate.value
  }

  predicate Holding(p: Phase) {
    p.Admitting? || p.Running? || p.TimedOut?
  }

  predicate Tripped(s: State) {
    s.budgetExceeded || s.failureTripped
  }

  // --- the steps of _run_item ---

  // Once the batch is aborted its stream is closed: a send raises, and the item unwinds with
  // what it has counted by then.
  function Unwind(s: State, i: nat, at: Progress): State
    requires i < |s.phase|
  {
    s.(phase := s.phase[i := Torn(at)], permits := s.permits + 1, inflight := s.inflight - {i})
  }

  function Return(s: State, i: nat, outcome: Outcome): State
    requires i < |s.phase|
  {
    s.(phase := s.phase[i := Done(outcome)], permits := s.permits + 1)
  }

  // Counted and reported without a run.
  function FastFail(s: State, i: nat, reason: Reason): State
    requires i < |s.phase|
  {
    var s := s.(cancelled := s.cancelled + 1, completed := s.completed + 1);
    if s.aborted then Unwind(s, i, Completed)
    else Return(s.(frames := s.frames + [SyntheticCancel(i, reason)]), i, Cancelled)
  }

  // The limiter lets the item in.
  function Enter(s: State, i: nat): State {
    if i >= |s.phase| || !s.phase[i].Queued? || s.permits <= 0 then s
    else if s.aborted then s.(phase := s.phase[i := Skipped])
    else
      var s := s.(permits := s.permits - 1);
      if Tripped(s) then
        FastFail(s, i, if s.budgetExceeded then BatchBudgetExceeded else BatchFailureRateTripped)
      else s.(phase := s.phase[i := Admitting])
  }

  datatype Admission = CanAccept | Draining | Late

  // The admission loop does not look at the abort again.
  function Admit(s: State, i: nat, a: Admission): State {
    if i >= |s.phase| || !s.phase[i].Admitting? then s
    else
      match a
      case CanAccept =>
        s.(phase := s.phase[i := Running], inflight := s.inflight + {i},
           history := s.history.(startsAfter := s.history.startsAfter + if Tripped(s) then 1 else 0))
      case Draining => FastFail(s, i, WorkerDrain)
      case Late => FastFail(s, i, Timeout)
  }

  // _record_cost. The breach frame is sent before anything else happens, unless that send is
  // cut: the item's own timeout is delivered there, or the client is gone.
  function RecordCost(policy: Policy, s: State, i: nat, cost: Option<real>, cut: bool): State
    requires i < |s.history.itemCost|
  {
    if cost.None? then s
    else
      var h := s.history.(itemCost := s.history.itemCost[i := s.history.itemCost[i] + cost.value]);
      var s := s.(cost := s.cost + cost.value, history := h);
      if !s.budgetExceeded && OverBudget(policy, s.cost) && policy.stopOnBudget then
        s.(budgetExceeded := true,
           frames := if cut then s.frames else s.frames + [BudgetExceeded],
           history := h.(cut := cut, breachAt := |s.frames|, atBreach := s.phase))
      else s
  }

  // A run event goes out tagged; if the client is gone the run is cancelled instead.
  function Forward(s: State, i: nat, terminal: bool): State
    requires i < |s.phase|
  {
    if s.aborted then Unwind(s, i, Uncounted) else s.(frames := s.frames + [Forwarded(i, terminal)])
  }

  function LlmCompleted(policy: Policy, s: State, i: nat, cost: Option<real>): State {
    if i >= |s.phase| || !s.phase[i].Running? || i >= |s.history.itemCost| then s
    else Forward(RecordCost(policy, s, i, cost, s.aborted), i, false)
  }

  function OtherEvent(s: State, i: nat): State {
    if i >= |s.phase| || !s.phase[i].Running? then s else Forward(s, i, false)
  }

  // The common end: count the item as completed, check the failure rate, free the permit.
  function Complete(policy: Policy, s: State, i: nat, outcome: Outcome): State
    requires i < |s.phase|
  {
    var s := s.(completed := s.completed + 1);
    var hit := FailureRateHit(policy, s.failed, s.completed) && !s.failureTripped;
    Return(s.(failureTripped := s.failureTripped || hit,
              frames := if hit then s.frames + [FailureRateTripped] else s.frames), i, outcome)
  }

  function TerminalEvent(policy: Policy, s: State, i: nat, outcome: Outcome): State {
    if i >= |s.phase| || !s.phase[i].Running? then s
    else if s.aborted then Forward(s, i, true)
    else Ended(policy, Forward(s, i, true), i, outcome)
  }

  function Ended(policy: Policy, s: State, i: nat, outcome: Outcome): State
    requires i < |s.phase|
  {
    Complete(policy,
             s.(inflight := s.inflight - {i},
                succeeded := if outcome.Succeeded? then s.succeeded + 1 else s.succeeded,
                failed := if outcome.Failed? then s.failed + 1 else s.failed,
                cancelled := if outcome.Cancelled? then s.cancelled + 1 else s.cancelled), i, outcome)
  }

  function OutcomeOf(terminal: string): Outcome {
    if terminal == "run.completed" then Succeeded else if terminal == "run.failed" then Failed else Cancelled
  }

  // The item's timeout fires, or its event stream ends without a terminal event.
  function RunTimedOut(s: State, i: nat): State {
    if i >= |s.phase| || !s.phase[i].Running? then s
    else s.(inflight := s.inflight - {i}, cancelled := s.cancelled + 1, phase := s.phase[i := TimedOut])
  }

  // The timeout is delivered at the first send after an llm.completed: the cost is recorded and
  // the frame is lost. If the cost was the breach, the flag is up and the client is not told.
  function SendCut(policy: Policy, s: State, i: nat, cost: Option<real>): State {
    if i >= |s.phase| || !s.phase[i].Running? || i >= |s.history.itemCost| then s
    else RunTimedOut(RecordCost(policy, s, i, cost, true), i)
  }

  function TimeoutFrame(policy: Policy, s: State, i: nat): State {
    if i >= |s.phase| || !s.phase[i].TimedOut? then s
    else if s.aborted then Unwind(s, i, OutcomeCounted)
    else Complete(policy, s.(frames := s.frames + [SyntheticCancel(i, Timeout)]), i, Cancelled)
  }

  function Abort(s: State): State {
    s.(aborted := true)
  }

  // The teardown reaches an item of an aborted batch.
  function Tear(s: State, i: nat): State {
    if !s.aborted || i >= |s.phase| then s
    else if s.phase[i].Queued? then s.(phase := s.phase[i := Torn(Uncounted)])
    else if Holding(s.phase[i]) then Unwind(s, i, if s.phase[i].TimedOut? then OutcomeCounted else Uncounted)
    else s
  }

  datatype Action =
    | DoEnter(i: nat) | DoAdmit(i: nat, a: Admission)
    | DoLlm(i: nat, cost: Option<real>) | DoOther(i: nat) | DoTerminal(i: nat, outcome: Outcome)
    | DoTimeout(i: nat) | DoSendCut(i: nat, cost: Option<real>) | DoTimeoutFrame(i: nat)
    | DoAbort | DoTear(i: nat)

  function Apply(policy: Policy, s: State, a: Action): State {
    match a
    case DoEnter(i) => Enter(s, i)
    case DoAdmit(i, adm) => Admit(s, i, adm)
    case DoLlm(i, cost) => LlmCompleted(policy, s, i, cost)
    case DoOther(i) => OtherEvent(s, i)
    case DoTerminal(i, outcome) => TerminalEvent(policy, s, i, outcome)
    case DoTimeout(i) => RunTimedOut(s, i)
    case DoSendCut(i, cost) => SendCut(policy, s, i, cost)
    case DoTimeoutFrame(i) => TimeoutFrame(policy, s, i)
    case DoAbort => Abort(s)
    case DoTear(i) => Tear(s, i)
  }

  function Exec(policy: Policy, n: nat, actions: seq<Action>): State {
    if actions == [] then Init(policy, n)
    else Apply(policy, Exec(policy, n, actions[..|actions| - 1]), actions[|actions| - 1])
  }

  // --- the object ---

  class BatchExecutor {
    const policy: Policy
    var phase: seq<Phase>
    var permits: int
    var inflight: set<nat>
    var costUsd: real
    var budgetExceeded: bool
    var failureTripped: bool
    var succeeded: nat
    var failed: nat
    var cancelled: nat
    var completedItems: nat
    var frames: seq<Frame>
    var aborted: bool
    ghost var history: History

    constructor (policy: Policy, n: nat)
      ensures this.policy == policy && View() == Init(policy, n)
    {
      this.policy := policy;
      phase, permits, inflight := seq(n, _ => Queued), policy.maxParallel, {};
      costUsd, budgetExceeded, failureTripped := 0.0, false, false;
      succeeded, failed, cancelled, completedItems := 0, 0, 0, 0;
      frames, aborted := [], false;
      history := History(seq(n, _ => 0.0), false, 0, [], 0);
    }

    ghost function View(): State
      reads this
    {
      State(phase, permits, inflight, costUsd, budgetExceeded, failureTripped,
            succeeded, failed, cancelled, completedItems, frames, aborted, history)
    }

    // _emit, into the unbounded buffer: it raises once the client is gone.
    method Emit(f: Frame) returns (gone: bool)
      modifies `frames
      ensures gone == aborted && frames == if gone then old(frames) else old(frames) + [f]
    {
      gone := aborted;
      if !gone {
        frames := frames + [f];
      }
    }

    // An exception leaves _run_item: the limiter's permit is back, the run is not in flight.
    method Leave(i: nat, at: Progress)
      requires i < |phase|
      modifies `phase, `permits, `inflight
      ensures View() == Unwind(old(View()), i, at)
    {
      phase, permits, inflight := phase[i := Torn(at)], permits + 1, inflight - {i};
    }

    // _record_cost; cut says that a timeout is delivered at its send.
    method RecordItemCost(i: nat, cost: Option<real>, cut: bool) returns (gone: bool)
      requires i < |history.itemCost|
      modifies this
      ensures View() == RecordCost(policy, old(View()), i, cost, cut || old(aborted))
      ensures gone ==> aborted
    {
      gone := false;
      if cost.None? {
        return;
      }
      costUsd := costUsd + cost.value;
      history := history.(itemCost := history.itemCost[i := history.itemCost[i] + cost.value]);
      if !budgetExceeded && OverBudget(policy, costUsd) && policy.stopOnBudget {
        history := history.(cut := cut || aborted, breachAt := |frames|, atBreach := phase);
        budgetExceeded := true;
        if !cut {
          gone := Emit(BudgetExceeded);
        }
      }
    }

    // From the limiter to the admission loop.
    method Begin(i: nat)
      requires i < |phase| && phase[i].Queued? && permits > 0
      modifies this
      ensures View() == Enter(old(View()), i)
    {
      if aborted {
        phase := phase[i := Skipped];
        return;
      }
      permits := permits - 1;
      if budgetExceeded || failureTripped {
        Refuse(i, if budgetExceeded then BatchBudgetExceeded else BatchFailureRateTripped);
        return;
      }
      phase := phase[i := Admitting];
    }

    // The item ends without a run.
    method Refuse(i: nat, reason: Reason)
      requires i < |phase|
      modifies this
      ensures View() == FastFail(old(View()), i, reason)
    {
      cancelled := cancelled + 1;
      completedItems := completedItems + 1;
      var gone := Emit(SyntheticCancel(i, reason));
      if gone {
        Leave(i, Completed);
        return;
      }
      phase, permits := phase[i := Done(Cancelled)], permits + 1;
    }

    // The end of the admission loop: the run starts, or the item ends without one.
    method AfterAdmission(i: nat, a: Admission)
      requires i < |phase| && phase[i].Admitting?
      modifies this
      ensures View() == Admit(old(View()), i, a)
    {
      if !a.CanAccept? {
        Refuse(i, if a.Draining? then WorkerDrain else Timeout);
        return;
      }
      if budgetExceeded || failureTripped {
        history := history.(startsAfter := history.startsAfter + 1);
      }
      phase, inflight := phase[i := Running], inflight + {i};
    }

    // The run is given up: its item is counted first, its frame sent and completed later.
    method OnTimeout(i: nat)
      requires i < |phase| && phase[i].Running?
      modifies this
      ensures View() == RunTimedOut(old(View()), i)
    {
      inflight := inflight - {i};
      cancelled := cancelled + 1;
      phase := phase[i := TimedOut];
    }

    method SendTimeout(i: nat)
      requires i < |phase| && phase[i].TimedOut?
      modifies this
      ensures View() == TimeoutFrame(policy, old(View()), i)
    {
      var gone := Emit(SyntheticCancel(i, Timeout));
      if gone {
        Leave(i, OutcomeCounted);
        return;
      }
      Finish(i, Cancelled);
    }

    // One event of the item's run.
    method OnEvent(i: nat, name: string, cost: Option<real>)
      requires i < |phase| && |history.itemCost| == |phase| && phase[i].Running?
      modifies this
      ensures name == "llm.completed" ==> View() == LlmCompleted(policy, old(View()), i, cost)
      ensures name != "llm.completed" && name !in TERMINAL_EVENTS ==> View() == OtherEvent(old(View()), i)
      ensures name in TERMINAL_EVENTS ==> View() == TerminalEvent(policy, old(View()), i, OutcomeOf(name))
    {
      var gone := false;
      if name == "llm.completed" {
        gone := RecordItemCost(i, cost, false);
      }
      if !gone {
        gone := Emit(Forwarded(i, name in TERMINAL_EVENTS));
      }
      if gone {
        Leave(i, Uncounted);
      } else if name in TERMINAL_EVENTS {
        AfterRun(i, name);
      }
    }

    // What follows the event loop once a terminal event has been forwarded.
    method AfterRun(i: nat, terminal: string)
      requires i < |phase|
      modifies this
      ensures View() == Ended(policy, old(View()), i, OutcomeOf(terminal))
    {
      inflight := inflight - {i};
      if terminal == "run.completed" {
        succeeded := succeeded + 1;
      } else if terminal == "run.failed" {
        failed := failed + 1;
      } else {
        cancelled := cancelled + 1;
      }
      Finish(i, OutcomeOf(terminal));
    }

    method Finish(i: nat, outcome: Outcome)
      requires i < |phase|
      modifies this
      ensures View() == Complete(policy, old(View()), i, outcome)
    {
      completedItems := completedItems + 1;
      if FailureRateHit(policy, failed, completedItems) && !failureTripped {
        failureTripped := true;
        frames := frames + [FailureRateTripped];
      }
      phase, permits := phase[i := Done(outcome)], permits + 1;
    }
  }
}
