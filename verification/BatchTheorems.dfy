// The batch properties over whole runs.
module BatchTheorems {
  import opened Events
  import opened Batch
  import opened BatchProtocol
  import opened Multiples

  // --- one terminal frame per item ---

  predicate Finishes(s: State, t: State, i: nat)
    requires i < |s.phase| && |t.phase| == |s.phase|
  {
    t.phase[i].Done? && !s.phase[i].Done?
  }

  ghost predicate AddsFor(s: State, t: State, i: nat, n: nat) {
    && Terminals(t.frames, i) == Terminals(s.frames, i) + n
    && forall k: nat :: k != i ==> Terminals(t.frames, k) == Terminals(s.frames, k)
  }

  lemma AddsFrame(s: State, t: State, f: Frame, i: nat)
    requires t.frames == s.frames + [f] && (f.BudgetExceeded? || f.FailureRateTripped? || f.item == i)
    ensures AddsFor(s, t, i, if EndsItem(f, i) then 1 else 0)
  {
  }

  lemma AddsComplete(policy: Policy, s: State, i: nat, outcome: Outcome)
    requires i < |s.phase|
    ensures AddsFor(s, Complete(policy, s, i, outcome), i, 0)
    ensures AddsFor(s, Ended(policy, s, i, outcome), i, 0)
  {
    var t, u := Complete(policy, s, i, outcome), Ended(policy, s, i, outcome);
    if t.frames != s.frames {
      AddsFrame(s, t, FailureRateTripped, i);
    }
    if u.frames != s.frames {
      AddsFrame(s, u, FailureRateTripped, i);
    }
  }

  lemma TerminalFrames(policy: Policy, s: State, a: Action)
    requires Counted(policy, s) && !a.DoAbort? && a.i < |s.phase|
    ensures var t := Apply(policy, s, a);
            |t.phase| == |s.phase| && AddsFor(s, t, a.i, if Finishes(s, t, a.i) then 1 else 0)
  {
    match a
    case DoEnter(i) => AddsEnter(policy, s, i);
    case DoAdmit(i, adm) => AddsAdmit(policy, s, i, adm);
    case DoOther(i) => AddsOther(policy, s, i);
    case DoLlm(i, cost) => AddsLlm(policy, s, i, cost);
    case DoTerminal(i, outcome) => AddsTerminal(policy, s, i, outcome);
    case DoTimeout(i) =>
    case DoSendCut(i, cost) => AddsCut(policy, s, i, cost);
    case DoTimeoutFrame(i) => AddsTimeout(policy, s, i);
    case DoTear(i) =>
  }

  // One step of item i adds a terminal frame for it exactly if it finishes it.
  ghost predicate EndsOnce(s: State, t: State, i: nat)
    requires i < |s.phase|
  {
    |t.phase| == |s.phase| && AddsFor(s, t, i, if Finishes(s, t, i) then 1 else 0)
  }

  lemma AddsEnter(policy: Policy, s: State, i: nat)
    requires i < |s.phase|
    ensures EndsOnce(s, Enter(s, i), i)
  {
  }

  lemma AddsAdmit(policy: Policy, s: State, i: nat, adm: Admission)
    requires i < |s.phase|
    ensures EndsOnce(s, Admit(s, i, adm), i)
  {
  }

  lemma AddsOther(policy: Policy, s: State, i: nat)
    requires i < |s.phase|
    ensures EndsOnce(s, OtherEvent(s, i), i)
  {
  }

  lemma AddsLlm(policy: Policy, s: State, i: nat, cost: Option<real>)
    requires i < |s.phase|
    ensures EndsOnce(s, LlmCompleted(policy, s, i, cost), i)
  {
    if s.phase[i].Running? && i < |s.history.itemCost| {
      AddsRecord(policy, s, i, cost, s.aborted);
      AddsForward(RecordCost(policy, s, i, cost, s.aborted), i);
    }
  }

  lemma AddsRecord(policy: Policy, s: State, i: nat, cost: Option<real>, cut: bool)
    requires i < |s.history.itemCost|
    ensures var t := RecordCost(policy, s, i, cost, cut); t.phase == s.phase && AddsFor(s, t, i, 0)
  {
    var t := RecordCost(policy, s, i, cost, cut);
    if t.frames != s.frames {
      AddsFrame(s, t, BudgetExceeded, i);
    }
  }

  lemma AddsForward(s: State, i: nat)
    requires i < |s.phase| && s.phase[i].Running?
    ensures EndsOnce(s, Forward(s, i, false), i) && AddsFor(s, Forward(s, i, false), i, 0)
  {
    if !s.aborted {
      AddsFrame(s, Forward(s, i, false), Forwarded(i, false), i);
    }
  }

  lemma AddsCut(policy: Policy, s: State, i: nat, cost: Option<real>)
    requires i < |s.phase|
    ensures EndsOnce(s, SendCut(policy, s, i, cost), i)
  {
    if s.phase[i].Running? && i < |s.history.itemCost| {
      AddsRecord(policy, s, i, cost, true);
    }
  }

  lemma AddsTerminal(policy: Policy, s: State, i: nat, outcome: Outcome)
    requires i < |s.phase|
    ensures var t := TerminalEvent(policy, s, i, outcome);
            |t.phase| == |s.phase| && AddsFor(s, t, i, if Finishes(s, t, i) then 1 else 0)
  {
    if s.phase[i].Running? && !s.aborted {
      AddsFrame(s, Forward(s, i, true), Forwarded(i, true), i);
      AddsComplete(policy, Forward(s, i, true), i, outcome);
    }
  }

  lemma AddsTimeout(policy: Policy, s: State, i: nat)
    requires i < |s.phase|
    ensures var t := TimeoutFrame(policy, s, i);
            |t.phase| == |s.phase| && AddsFor(s, t, i, if Finishes(s, t, i) then 1 else 0)
  {
  }

  lemma TerminalsStep(policy: Policy, s: State, a: Action)
    requires Counted(policy, s) && TerminalsOk(s)
    ensures TerminalsOk(Apply(policy, s, a))
  {
    if !a.DoAbort? && a.i < |s.phase| {
      TerminalFrames(policy, s, a);
      MovesOneItem(policy, s, a);
      if s.phase[a.i].Done? {
        StaysDone(policy, s, a);
      }
    }
  }

  lemma StaysDone(policy: Policy, s: State, a: Action)
    requires !a.DoAbort? && a.i < |s.phase| && s.phase[a.i].Done?
    ensures Apply(policy, s, a) == s
  {
  }

  // --- all runs ---

  ghost predicate Inv(policy: Policy, s: State, n: nat) {
    |s.phase| == n && Counted(policy, s) && BreachOk(s) && StartsOk(policy, s) && TerminalsOk(s)
  }

  lemma {:induction false} RunKeepsInv(policy: Policy, n: nat, actions: seq<Action>)
    ensures Inv(policy, Exec(policy, n, actions), n)
  {
    if actions == [] {
      var start := Init(policy, n).phase;
      forall k ensures Count(k, start) == 0 {
        CountFresh(k, n);
      }
    } else {
      var s, a := Exec(policy, n, actions[..|actions| - 1]), actions[|actions| - 1];
      RunKeepsInv(policy, n, actions[..|actions| - 1]);
      CountedStep(policy, s, a);
      BreachStep(policy, s, a);
      StartsStep(policy, s, a);
      TerminalsStep(policy, s, a);
    }
  }

  ghost predicate AtMostOnce(frames: seq<Frame>, f: Frame) {
    forall j, k :: 0 <= j < |frames| && 0 <= k < |frames| && frames[j] == f == frames[k] ==> j == k
  }

  // The flag goes up in a step whose send is cut: the item's timeout is delivered there, or the
  // client is gone.
  predicate RaisesUnsent(policy: Policy, s: State, a: Action) {
    !s.budgetExceeded && Apply(policy, s, a).budgetExceeded && (a.DoSendCut? || s.aborted)
  }

  predicate BreachCut(policy: Policy, n: nat, actions: seq<Action>) {
    actions != [] &&
    var before := actions[..|actions| - 1];
    BreachCut(policy, n, before) || RaisesUnsent(policy, Exec(policy, n, before), actions[|actions| - 1])
  }

  lemma CutInStep(policy: Policy, s: State, a: Action)
    requires s.history.cut ==> s.budgetExceeded
    ensures Apply(policy, s, a).history.cut <==> s.history.cut || RaisesUnsent(policy, s, a)
  {
    if a.DoTerminal? {
      TerminalKeepsCost(policy, s, a.i, a.outcome);
    } else if !a.DoLlm? && !a.DoSendCut? {
      OtherKeepsCost(policy, s, a);
    } else {
      CutByLlm(policy, s, a);
    }
  }

  lemma CutByLlm(policy: Policy, s: State, a: Action)
    requires (s.history.cut ==> s.budgetExceeded) && (a.DoLlm? || a.DoSendCut?)
    ensures Apply(policy, s, a).history.cut <==> s.history.cut || RaisesUnsent(policy, s, a)
  {
  }

  lemma {:induction false} CutIsAStep(policy: Policy, n: nat, actions: seq<Action>)
    ensures Exec(policy, n, actions).history.cut <==> BreachCut(policy, n, actions)
  {
    if actions != [] {
      CutIsAStep(policy, n, actions[..|actions| - 1]);
      RunKeepsInv(policy, n, actions[..|actions| - 1]);
      CutInStep(policy, Exec(policy, n, actions[..|actions| - 1]), actions[|actions| - 1]);
    }
  }

  // The breach frame appears at most once; and it precedes every cancellation it triggers
  // exactly when its own send was not cut short by the sending item's timeout.
  lemma BreachPrecedesCancellations(policy: Policy, n: nat, actions: seq<Action>)
    ensures var s := Exec(policy, n, actions);
            var cancels := exists k :: 0 <= k < |s.frames| && IsBudgetCancel(s.frames[k]);
            && AtMostOnce(s.frames, BudgetExceeded)
            && (!BreachCut(policy, n, actions) || !cancels <==>
                  forall k :: 0 <= k < |s.frames| && IsBudgetCancel(s.frames[k]) ==>
                    exists j :: 0 <= j < k && s.frames[j] == BudgetExceeded)
  {
    RunKeepsInv(policy, n, actions);
    CutIsAStep(policy, n, actions);
  }

  // An item comes to run, a flag being up before.
  predicate StartsLate(s: State, t: State) {
    && (s.budgetExceeded || s.failureTripped)
    && exists i :: 0 <= i < |s.phase| && i < |t.phase| && t.phase[i].Running? && !s.phase[i].Running?
  }

  // How many runs start once a flag is up.
  function LateStarts(policy: Policy, n: nat, actions: seq<Action>): nat {
    if actions == [] then 0
    else
      var before := Exec(policy, n, actions[..|actions| - 1]);
      LateStarts(policy, n, actions[..|actions| - 1])
      + if StartsLate(before, Apply(policy, before, actions[|actions| - 1])) then 1 else 0
  }

  lemma LateStartInStep(policy: Policy, s: State, a: Action)
    ensures var t := Apply(policy, s, a);
            t.history.startsAfter == s.history.startsAfter + if StartsLate(s, t) then 1 else 0
  {
    var t := Apply(policy, s, a);
    if a.DoAdmit? && t != s && a.a.CanAccept? {
      assert t.phase[a.i].Running? && !s.phase[a.i].Running?;
    } else {
      NobodyStarts(policy, s, a);
    }
  }

  lemma NobodyStarts(policy: Policy, s: State, a: Action)
    requires a.DoAdmit? ==> Apply(policy, s, a) == s || !a.a.CanAccept?
    ensures var t := Apply(policy, s, a); !StartsLate(s, t) && t.history.startsAfter == s.history.startsAfter
  {
  }

  lemma {:induction false} LateStartsCounted(policy: Policy, n: nat, actions: seq<Action>)
    ensures Exec(policy, n, actions).history.startsAfter == LateStarts(policy, n, actions)
  {
    if actions != [] {
      LateStartsCounted(policy, n, actions[..|actions| - 1]);
      LateStartInStep(policy, Exec(policy, n, actions[..|actions| - 1]), actions[|actions| - 1]);
    }
  }

  // Once a flag is up, at most max_parallel - 1 further runs start.
  lemma FewStartsAfterTrip(policy: Policy, n: nat, actions: seq<Action>)
    ensures var s, late := Exec(policy, n, actions), LateStarts(policy, n, actions);
            if s.budgetExceeded || s.failureTripped then late <= policy.maxParallel - 1 else late == 0
  {
    RunKeepsInv(policy, n, actions);
    LateStartsCounted(policy, n, actions);
  }

  // --- items that reach the limiter after the trip ---

  // Never started: still waiting, or cancelled by a frame of its own, or abandoned.
  ghost predicate NeverStarted(s: State, i: nat) {
    && i < |s.phase| && Tripped(s)
    && match s.phase[i]
       case Queued => true
       case Done(outcome) =>
         outcome.Cancelled?
         && (SyntheticCancel(i, BatchBudgetExceeded) in s.frames
             || SyntheticCancel(i, BatchFailureRateTripped) in s.frames)
       case Skipped => s.aborted
       case Torn(at) => s.aborted && at.Uncounted?
       case _ => false
  }

  lemma NeverStartedStep(policy: Policy, s: State, i: nat, a: Action)
    requires Counted(policy, s) && NeverStarted(s, i)
    ensures NeverStarted(Apply(policy, s, a), i)
  {
    FramesGrow(policy, s, a);
    if !a.DoAbort? && a.i == i {
      LateStep(policy, s, a);
      StillNeverStarted(s, Apply(policy, s, a), i);
    } else if !a.DoAbort? && a.i < |s.phase| {
      MovesOneItem(policy, s, a);
      StillNeverStarted(s, Apply(policy, s, a), i);
    }
  }

  lemma StillNeverStarted(s: State, t: State, i: nat)
    requires NeverStarted(s, i) && Grows(s, t)
    requires i < |t.phase| && (t.phase[i] == s.phase[i] || NeverStarted(t, i))
    ensures NeverStarted(t, i)
  {
  }

  // Nothing sent is taken back, and no flag goes down.
  ghost predicate Grows(s: State, t: State) {
    s.frames <= t.frames && (Tripped(s) ==> Tripped(t)) && (s.aborted ==> t.aborted)
  }

  lemma FramesGrow(policy: Policy, s: State, a: Action)
    ensures Grows(s, Apply(policy, s, a))
  {
    match a
    case DoLlm(i, cost) => LlmGrows(policy, s, i, cost);
    case DoSendCut(i, cost) => CutGrows(policy, s, i, cost);
    case DoTerminal(i, outcome) => TerminalGrows(policy, s, i, outcome);
    case _ =>
  }

  lemma LlmGrows(policy: Policy, s: State, i: nat, cost: Option<real>)
    ensures Grows(s, LlmCompleted(policy, s, i, cost))
  {
  }

  lemma CutGrows(policy: Policy, s: State, i: nat, cost: Option<real>)
    ensures Grows(s, SendCut(policy, s, i, cost))
  {
  }

  lemma TerminalGrows(policy: Policy, s: State, i: nat, outcome: Outcome)
    ensures Grows(s, TerminalEvent(policy, s, i, outcome))
  {
  }

  lemma LateStep(policy: Policy, s: State, a: Action)
    requires !a.DoAbort? && NeverStarted(s, a.i)
    ensures var t := Apply(policy, s, a);
            t.phase == s.phase || (a.i < |t.phase| && s.phase[a.i].Queued? && NeverStarted(t, a.i))
  {
  }

  // An item still queued when a flag goes up never starts a run, whatever happens later; if the
  // batch is not aborted it can only end as a synthetic cancel with the flag's reason.
  lemma {:induction false} LateItemsNeverStart(policy: Policy, n: nat, actions: seq<Action>, later: seq<Action>, i: nat)
    requires var s := Exec(policy, n, actions); i < |s.phase| && Tripped(s) && s.phase[i].Queued?
    ensures NeverStarted(Exec(policy, n, actions + later), i)
  {
    if later == [] {
      assert actions + later == actions;
    } else {
      var shorter := later[..|later| - 1];
      LateItemsNeverStart(policy, n, actions, shorter, i);
      RunKeepsInv(policy, n, actions + shorter);
      assert (actions + later)[..|actions + later| - 1] == actions + shorter;
      NeverStartedStep(policy, Exec(policy, n, actions + shorter), i, later[|later| - 1]);
    }
  }

  // --- conservation ---

  function RunningItems(s: seq<Phase>): set<nat> {
    set i | 0 <= i < |s| && s[i].Running?
  }

  lemma {:induction false} CountSnoc(k: Kind, s: seq<Phase>, p: Phase)
    ensures Count(k, s + [p]) == Count(k, s) + One(k, p)
  {
    if s == [] {
      assert s + [p] == [p];
    } else {
      assert (s + [p])[1..] == s[1..] + [p];
      CountSnoc(k, s[1..], p);
    }
  }

  lemma {:induction false} RunningAtMostHolding(s: seq<Phase>)
    ensures |RunningItems(s)| <= Count(KHolding, s)
  {
    if s != [] {
      var n := |s| - 1;
      RunningAtMostHolding(s[..n]);
      CountSnoc(KHolding, s[..n], s[n]);
      assert s == s[..n] + [s[n]];
      assert RunningItems(s) == RunningItems(s[..n]) + if s[n].Running? then {n} else {};
    }
  }

  // In every reachable state: at most max_parallel runs are in flight, every permit is free or
  // held by one item, and the outcome counters exceed completed_items by exactly the items
  // between their timeout count and their completion count.
  lemma Conservation(policy: Policy, n: nat, actions: seq<Action>)
    ensures var s := Exec(policy, n, actions);
            && |s.inflight| <= policy.maxParallel && s.inflight == RunningItems(s.phase)
            && s.permits + Count(KHolding, s.phase) == policy.maxParallel
            && s.succeeded + s.failed + s.cancelled
               == s.completed + Count(KTimedOut, s.phase) + Count(KTornHalf, s.phase)
            && s.completed <= n
            && |s.phase| == n
            && forall i :: 0 <= i < n ==> (Terminals(s.frames, i) == if s.phase[i].Done? then 1 else 0)
  {
    RunKeepsInv(policy, n, actions);
    var s := Exec(policy, n, actions);
    CountBounds(s.phase);
    RunningAtMostHolding(s.phase);
  }

  predicate Returned(p: Phase) {
    p.Done? || p.Skipped? || p.Torn?
  }

  // When drive() ends undisturbed, every item is counted exactly once and has exactly one
  // terminal frame on the wire, and every permit is back.
  lemma UndisturbedEnd(policy: Policy, n: nat, actions: seq<Action>)
    requires var s := Exec(policy, n, actions); !s.aborted && forall i :: 0 <= i < |s.phase| ==> Returned(s.phase[i])
    ensures var s := Exec(policy, n, actions);
            && s.succeeded + s.failed + s.cancelled == s.completed == n
            && s.permits == policy.maxParallel && s.inflight == {}
            && forall i :: 0 <= i < n ==> Terminals(s.frames, i) == 1
  {
    RunKeepsInv(policy, n, actions);
    var s := Exec(policy, n, actions);
    CountBounds(s.phase);
    NoneLeft(KHolding, s.phase);
    NoneLeft(KTimedOut, s.phase);
    NoneLeft(KTornHalf, s.phase);
    NoneLeft(KTornWhole, s.phase);
  }

  lemma {:induction false} NoneLeft(k: Kind, s: seq<Phase>)
    requires forall i :: 0 <= i < |s| ==> !Is(k, s[i])
    ensures Count(k, s) == 0
  {
    if s != [] {
      NoneLeft(k, s[1..]);
    }
  }

  // --- the failure rate ---

  predicate Rated(policy: Policy) {
    policy.stopOnFailureRate.Some? ==> policy.stopOnFailureRate.value > 0.0
  }

  // The flag is up just when its frame is out, once; while it is down the rate is not reached.
  ghost predicate RateOk(policy: Policy, s: State) {
    && s.failed <= s.completed
    && (s.failureTripped <==> FailureRateTripped in s.frames)
    && AtMostOnce(s.frames, FailureRateTripped)
    && (!s.failureTripped ==> !FailureRateHit(policy, s.failed, s.completed))
  }

  // --- the failure breach comes first ---

  predicate IsRateCancel(f: Frame) {
    f.SyntheticCancel? && f.reason == BatchFailureRateTripped
  }

  // The flag is up just when its frame is out, once, ahead of every cancellation it triggers.
  ghost predicate TripFirst(frames: seq<Frame>, tripped: bool) {
    && (tripped <==> FailureRateTripped in frames)
    && AtMostOnce(frames, FailureRateTripped)
    && forall k :: 0 <= k < |frames| && IsRateCancel(frames[k]) ==>
         exists j :: 0 <= j < k && frames[j] == FailureRateTripped
  }

  lemma TripGrows(frames: seq<Frame>, tripped: bool, f: Frame)
    requires TripFirst(frames, tripped)
    requires f == FailureRateTripped ==> !tripped
    requires IsRateCancel(f) ==> tripped
    ensures TripFirst(frames + [f], tripped || f == FailureRateTripped)
  {
    var more := frames + [f];
    assert more[|frames|] == f;
    forall k | 0 <= k < |more| && IsRateCancel(more[k])
      ensures exists j :: 0 <= j < k && more[j] == FailureRateTripped
    {
      var j :| 0 <= j < |frames| && frames[j] == FailureRateTripped && (k < |frames| ==> j < k);
      assert more[j] == FailureRateTripped;
    }
  }

  ghost predicate TripOk(s: State) {
    TripFirst(s.frames, s.failureTripped)
  }

  lemma TripForward(s: State, i: nat, terminal: bool)
    requires TripOk(s) && i < |s.phase|
    ensures TripOk(Forward(s, i, terminal))
  {
    TripGrows(s.frames, s.failureTripped, Forwarded(i, terminal));
  }

  lemma TripComplete(policy: Policy, s: State, i: nat, outcome: Outcome)
    requires TripOk(s) && i < |s.phase|
    ensures TripOk(Complete(policy, s, i, outcome))
  {
    if !s.failureTripped {
      TripGrows(s.frames, false, FailureRateTripped);
    }
  }

  lemma TripFastFail(s: State, i: nat, reason: Reason)
    requires TripOk(s) && i < |s.phase| && (reason == BatchFailureRateTripped ==> s.failureTripped)
    ensures TripOk(FastFail(s, i, reason))
  {
    TripGrows(s.frames, s.failureTripped, SyntheticCancel(i, reason));
  }

  lemma TripRecord(policy: Policy, s: State, i: nat, cost: Option<real>, cut: bool)
    requires TripOk(s) && i < |s.history.itemCost|
    ensures TripOk(RecordCost(policy, s, i, cost, cut))
  {
    TripGrows(s.frames, s.failureTripped, BudgetExceeded);
  }

  lemma TripEnter(s: State, i: nat)
    requires TripOk(s)
    ensures TripOk(Enter(s, i))
  {
    if i < |s.phase| && Tripped(s) {
      TripFastFail(s.(permits := s.permits - 1), i,
                   if s.budgetExceeded then BatchBudgetExceeded else BatchFailureRateTripped);
    }
  }

  lemma TripAdmit(s: State, i: nat, adm: Admission)
    requires TripOk(s)
    ensures TripOk(Admit(s, i, adm))
  {
    if i < |s.phase| {
      TripFastFail(s, i, WorkerDrain);
      TripFastFail(s, i, Timeout);
    }
  }

  lemma TripEnded(policy: Policy, s: State, i: nat, outcome: Outcome)
    requires TripOk(s) && i < |s.phase|
    ensures TripOk(Ended(policy, s, i, outcome))
  {
    if !s.failureTripped {
      TripGrows(s.frames, false, FailureRateTripped);
    }
  }

  lemma TripTerminal(policy: Policy, s: State, i: nat, outcome: Outcome)
    requires TripOk(s)
    ensures TripOk(TerminalEvent(policy, s, i, outcome))
  {
    if i < |s.phase| {
      TripForward(s, i, true);
      TripEnded(policy, Forward(s, i, true), i, outcome);
    }
  }

  lemma TripTimeoutFrame(policy: Policy, s: State, i: nat)
    requires TripOk(s)
    ensures TripOk(TimeoutFrame(policy, s, i))
  {
    if i < |s.phase| {
      TripGrows(s.frames, s.failureTripped, SyntheticCancel(i, Timeout));
      TripComplete(policy, s.(frames := s.frames + [SyntheticCancel(i, Timeout)]), i, Cancelled);
    }
  }

  lemma TripLlm(policy: Policy, s: State, i: nat, cost: Option<real>)
    requires TripOk(s)
    ensures TripOk(LlmCompleted(policy, s, i, cost)) && TripOk(SendCut(policy, s, i, cost))
  {
    if i < |s.phase| && i < |s.history.itemCost| {
      TripRecord(policy, s, i, cost, s.aborted);
      TripForward(RecordCost(policy, s, i, cost, s.aborted), i, false);
      TripRecord(policy, s, i, cost, true);
    }
  }

  lemma TripStep(policy: Policy, s: State, a: Action)
    requires TripOk(s)
    ensures TripOk(Apply(policy, s, a))
  {
    match a
    case DoEnter(i) => TripEnter(s, i);
    case DoAdmit(i, adm) => TripAdmit(s, i, adm);
    case DoLlm(i, cost) => TripLlm(policy, s, i, cost);
    case DoSendCut(i, cost) => TripLlm(policy, s, i, cost);
    case DoOther(i) => if i < |s.phase| { TripForward(s, i, false); }
    case DoTerminal(i, outcome) => TripTerminal(policy, s, i, outcome);
    case DoTimeoutFrame(i) => TripTimeoutFrame(policy, s, i);
    case _ =>
  }

  // Under every policy, whatever the rate: the failure breach is sent at most once, and ahead of
  // every cancellation it triggers. Unlike the budget breach it cannot be lost, being sent when no
  // timeout can be delivered any more.
  lemma {:induction false} TripPrecedesCancellations(policy: Policy, n: nat, actions: seq<Action>)
    ensures var s := Exec(policy, n, actions); TripFirst(s.frames, s.failureTripped)
  {
    if actions != [] {
      TripPrecedesCancellations(policy, n, actions[..|actions| - 1]);
      TripStep(policy, Exec(policy, n, actions[..|actions| - 1]), actions[|actions| - 1]);
    }
  }

  // --- when the failure rate trips ---

  // A completion that is no failure lowers the rate.
  lemma RateFalls(policy: Policy, failed: nat, completed: nat)
    requires Rated(policy) && failed <= completed && !FailureRateHit(policy, failed, completed)
    ensures !FailureRateHit(policy, failed, completed + 1)
  {
    if policy.stopOnFailureRate.Some? && completed > 0 {
      Dilutes(failed as real, completed as real, policy.stopOnFailureRate.value);
    }
  }

  lemma Dilutes(f: real, c: real, rate: real)
    requires c > 0.0 && f >= 0.0 && f / c < rate
    ensures f / (c + 1.0) < rate
  {
    var q, p := f / c, f / (c + 1.0);
    assert q * c == f && p * (c + 1.0) == f && p >= 0.0;
    assert p * (c + 1.0) == p * c + p;
    assert (q - p) * c == p;
  }

  lemma RateGrows(policy: Policy, s: State, t: State)
    requires RateOk(policy, s) && Rated(policy) && t.failed == s.failed && t.failureTripped == s.failureTripped
    requires t.frames == s.frames || exists f :: t.frames == s.frames + [f] && f != FailureRateTripped
    requires t.completed == s.completed || t.completed == s.completed + 1
    ensures RateOk(policy, t)
  {
    if !s.failureTripped {
      RateFalls(policy, s.failed, s.completed);
    }
  }

  lemma RateComplete(policy: Policy, s: State, i: nat, outcome: Outcome)
    requires i < |s.phase| && s.failed <= s.completed + 1
    requires s.failureTripped <==> FailureRateTripped in s.frames
    requires AtMostOnce(s.frames, FailureRateTripped)
    ensures RateOk(policy, Complete(policy, s, i, outcome))
  {
    var t := Complete(policy, s, i, outcome);
    if t.frames != s.frames {
      assert t.frames[|s.frames|] == FailureRateTripped;
    }
  }

  lemma RateForward(policy: Policy, s: State, i: nat, terminal: bool)
    requires RateOk(policy, s) && Rated(policy) && i < |s.phase|
    ensures RateOk(policy, Forward(s, i, terminal))
  {
    var t := Forward(s, i, terminal);
    assert t.frames != s.frames ==> t.frames == s.frames + [Forwarded(i, terminal)];
    RateGrows(policy, s, t);
  }

  lemma RateTerminal(policy: Policy, s: State, i: nat, outcome: Outcome)
    requires RateOk(policy, s) && Rated(policy) && i < |s.phase|
    ensures RateOk(policy, Ended(policy, Forward(s, i, true), i, outcome))
  {
    RateForward(policy, s, i, true);
    var u := Forward(s, i, true);
    RateComplete(policy, u.(inflight := u.inflight - {i},
                            succeeded := if outcome.Succeeded? then u.succeeded + 1 else u.succeeded,
                            failed := if outcome.Failed? then u.failed + 1 else u.failed,
                            cancelled := if outcome.Cancelled? then u.cancelled + 1 else u.cancelled), i, outcome);
  }

  lemma RateRecord(policy: Policy, s: State, i: nat, cost: Option<real>, cut: bool)
    requires RateOk(policy, s) && Rated(policy) && i < |s.history.itemCost|
    ensures RateOk(policy, RecordCost(policy, s, i, cost, cut))
  {
    var t := RecordCost(policy, s, i, cost, cut);
    assert t.frames != s.frames ==> t.frames == s.frames + [BudgetExceeded];
    RateGrows(policy, s, t);
  }

  lemma RateLlm(policy: Policy, s: State, i: nat, cost: Option<real>)
    requires RateOk(policy, s) && Rated(policy)
    ensures RateOk(policy, LlmCompleted(policy, s, i, cost)) && RateOk(policy, SendCut(policy, s, i, cost))
  {
    if i < |s.phase| && i < |s.history.itemCost| {
      RateRecord(policy, s, i, cost, s.aborted);
      RateForward(policy, RecordCost(policy, s, i, cost, s.aborted), i, false);
      RateRecord(policy, s, i, cost, true);
    }
  }

  lemma RateTimeoutFrame(policy: Policy, s: State, i: nat)
    requires RateOk(policy, s) && Rated(policy)
    ensures RateOk(policy, TimeoutFrame(policy, s, i))
  {
    if i < |s.phase| {
      var u := s.(frames := s.frames + [SyntheticCancel(i, Timeout)]);
      RateGrows(policy, s, u);
      RateComplete(policy, u, i, Cancelled);
    }
  }

  lemma RateStep(policy: Policy, s: State, a: Action)
    requires RateOk(policy, s) && Rated(policy)
    ensures RateOk(policy, Apply(policy, s, a))
  {
    match a
    case DoLlm(i, cost) => RateLlm(policy, s, i, cost);
    case DoSendCut(i, cost) => RateLlm(policy, s, i, cost);
    case DoTerminal(i, outcome) =>
      if i < |s.phase| {
        RateForward(policy, s, i, true);
        RateTerminal(policy, s, i, outcome);
      }
    case DoTimeoutFrame(i) => RateTimeoutFrame(policy, s, i);
    case _ => RateOther(policy, s, a);
  }

  lemma RateOther(policy: Policy, s: State, a: Action)
    requires RateOk(policy, s) && Rated(policy) && !a.DoLlm? && !a.DoSendCut? && !a.DoTerminal? && !a.DoTimeoutFrame?
    ensures RateOk(policy, Apply(policy, s, a))
  {
    var t := Apply(policy, s, a);
    if t.frames != s.frames {
      assert t.frames == s.frames + [t.frames[|s.frames|]];
    }
    RateGrows(policy, s, t);
  }

  lemma {:induction false} RunKeepsRate(policy: Policy, n: nat, actions: seq<Action>)
    requires Rated(policy)
    ensures RateOk(policy, Exec(policy, n, actions))
  {
    if actions != [] {
      RunKeepsRate(policy, n, actions[..|actions| - 1]);
      RateStep(policy, Exec(policy, n, actions[..|actions| - 1]), actions[|actions| - 1]);
    }
  }

  // The flag is up in a state if and only if its one frame has been sent, and as long as it is
  // down the failed share of the completed items is below the rate: this holds in every state
  // of every run exactly for a rate above 0. Under a rate of 0 an item cancelled before it ran
  // reaches the rate and trips nothing.
  lemma TripsWhenTheRateIsReached(policy: Policy)
    requires policy.maxParallel >= 1
    ensures Rated(policy) <==> forall n: nat, actions: seq<Action> :: RateOk(policy, Exec(policy, n, actions))
  {
    if Rated(policy) {
      forall n: nat, actions: seq<Action> ensures RateOk(policy, Exec(policy, n, actions)) {
        RunKeepsRate(policy, n, actions);
      }
    } else {
      var start := [DoEnter(0)];
      ExecSnoc(policy, 1, [], DoEnter(0));
      ExecSnoc(policy, 1, start, DoAdmit(0, Draining));
      assert [] + start == start;
      DrainedItemReachesZero(policy);
      assert !RateOk(policy, Exec(policy, 1, start + [DoAdmit(0, Draining)]));
    }
  }

  lemma DrainedItemReachesZero(policy: Policy)
    requires policy.maxParallel >= 1 && !Rated(policy)
    ensures !RateOk(policy, Admit(Enter(Init(policy, 1), 0), 0, Draining))
  {
  }

  lemma ExecSnoc(policy: Policy, n: nat, actions: seq<Action>, a: Action)
    ensures Exec(policy, n, actions + [a]) == Apply(policy, Exec(policy, n, actions), a)
  {
    assert (actions + [a])[..|actions + [a]| - 1] == actions;
  }

  // --- the cost overshoot ---

  function Sum(costs: seq<real>): real {
    if costs == [] then 0.0 else costs[0] + Sum(costs[1..])
  }

  // The costs of the items that held a permit when the budget tripped, or of the others.
  function SumWhere(costs: seq<real>, phases: seq<Phase>, held: bool): real
    requires |costs| == |phases|
  {
    if costs == [] then 0.0
    else (if Holding(phases[0]) == held then costs[0] else 0.0) + SumWhere(costs[1..], phases[1..], held)
  }

  lemma {:induction false} SumSplits(costs: seq<real>, phases: seq<Phase>)
    requires |costs| == |phases|
    ensures Sum(costs) == SumWhere(costs, phases, true) + SumWhere(costs, phases, false)
  {
    if costs != [] {
      SumSplits(costs[1..], phases[1..]);
    }
  }

  lemma {:induction false} SumAdds(costs: seq<real>, phases: seq<Phase>, i: nat, c: real)
    requires |costs| == |phases| && i < |costs|
    ensures var costs' := costs[i := costs[i] + c];
            && Sum(costs') == Sum(costs) + c
            && SumWhere(costs', phases, false)
               == SumWhere(costs, phases, false) + if Holding(phases[i]) then 0.0 else c
  {
    if i == 0 {
      assert costs[0 := costs[0] + c][1..] == costs[1..];
    } else {
      assert costs[i := costs[i] + c][1..] == costs[1..][i - 1 := costs[1..][i - 1] + c];
      SumAdds(costs[1..], phases[1..], i - 1, c);
    }
  }

  lemma {:induction false} SumWhereNonnegative(costs: seq<real>, phases: seq<Phase>, held: bool)
    requires |costs| == |phases| && forall i :: 0 <= i < |costs| ==> costs[i] >= 0.0
    ensures SumWhere(costs, phases, held) >= 0.0
  {
    if costs != [] {
      SumWhereNonnegative(costs[1..], phases[1..], held);
    }
  }

  lemma {:induction false} SumHeldBound(costs: seq<real>, phases: seq<Phase>, most: real)
    requires |costs| == |phases| && most >= 0.0 && forall i :: 0 <= i < |costs| ==> costs[i] <= most
    ensures SumWhere(costs, phases, true) <= Times(Count(KHolding, phases), most)
  {
    if costs != [] {
      SumHeldBound(costs[1..], phases[1..], most);
    }
  }

  predicate Nonnegative(a: Action) {
    ((a.DoLlm? || a.DoSendCut?) && a.cost.Some?) ==> a.cost.value >= 0.0
  }

  // The policies under which a breach stops the batch.
  predicate Budgeted(policy: Policy) {
    policy.maxCost.Some? && policy.stopOnBudget
  }

  // Nothing was spent, or less than the budget.
  predicate Below(cost: real, max: real) {
    cost == 0.0 || cost < max
  }

  ghost predicate CostOk(policy: Policy, s: State)
    requires policy.maxCost.Some?
  {
    var costs, max := s.history.itemCost, policy.maxCost.value;
    && |costs| == |s.phase| && s.cost == Sum(costs)
    && (forall i :: 0 <= i < |costs| ==> costs[i] >= 0.0)
    && if !s.budgetExceeded then Below(s.cost, max)
       else && |s.history.atBreach| == |costs|
            && Count(KHolding, s.history.atBreach) <= policy.maxParallel
            && Below(SumWhere(costs, s.history.atBreach, false), max)
            && forall i :: 0 <= i < |costs| && PastCheck(s.phase[i]) ==> Holding(s.history.atBreach[i])
  }

  lemma CostRecord(policy: Policy, s: State, i: nat, cost: Option<real>, cut: bool)
    requires Budgeted(policy) && CostOk(policy, s) && Counted(policy, s) && i < |s.phase| && s.phase[i].Running?
    requires cost.Some? ==> cost.value >= 0.0
    ensures CostOk(policy, RecordCost(policy, s, i, cost, cut))
  {
    if cost.Some? {
      var costs := s.history.itemCost;
      var costs' := costs[i := costs[i] + cost.value];
      if s.budgetExceeded {
        SumAdds(costs, s.history.atBreach, i, cost.value);
      } else {
        SumAdds(costs, s.phase, i, cost.value);
        OthersBelow(policy, costs, s.phase, s.cost);
      }
    }
  }

  // What the items without a permit have cost is within the budget if everything is.
  lemma OthersBelow(policy: Policy, costs: seq<real>, phases: seq<Phase>, cost: real)
    requires |costs| == |phases| && policy.maxCost.Some? && cost == Sum(costs) && Below(cost, policy.maxCost.value)
    requires forall i :: 0 <= i < |costs| ==> costs[i] >= 0.0
    ensures Below(SumWhere(costs, phases, false), policy.maxCost.value)
  {
    SumSplits(costs, phases);
    SumWhereNonnegative(costs, phases, true);
    SumWhereNonnegative(costs, phases, false);
  }

  // No cost is recorded, and nobody gets past the flag check once the budget is exceeded.
  ghost predicate KeepsCost(s: State, t: State) {
    && |t.phase| == |s.phase| && t.cost == s.cost && t.budgetExceeded == s.budgetExceeded
    && t.history == s.history.(startsAfter := t.history.startsAfter)
    && forall i :: 0 <= i < |s.phase| && PastCheck(t.phase[i]) ==> PastCheck(s.phase[i]) || !s.budgetExceeded
  }

  lemma CostKept(policy: Policy, s: State, t: State)
    requires policy.maxCost.Some? && CostOk(policy, s) && KeepsCost(s, t)
    ensures CostOk(policy, t)
  {
  }

  lemma CostLlm(policy: Policy, s: State, i: nat, cost: Option<real>)
    requires Budgeted(policy) && CostOk(policy, s) && Counted(policy, s) && (cost.Some? ==> cost.value >= 0.0)
    ensures CostOk(policy, LlmCompleted(policy, s, i, cost))
  {
    if i < |s.phase| && s.phase[i].Running? {
      CostRecord(policy, s, i, cost, s.aborted);
      ForwardKeepsCost(RecordCost(policy, s, i, cost, s.aborted), i, false);
      CostKept(policy, RecordCost(policy, s, i, cost, s.aborted), LlmCompleted(policy, s, i, cost));
    }
  }

  lemma ForwardKeepsCost(s: State, i: nat, terminal: bool)
    requires i < |s.phase|
    ensures KeepsCost(s, Forward(s, i, terminal))
  {
  }

  lemma CostCut(policy: Policy, s: State, i: nat, cost: Option<real>)
    requires Budgeted(policy) && CostOk(policy, s) && Counted(policy, s) && (cost.Some? ==> cost.value >= 0.0)
    ensures CostOk(policy, SendCut(policy, s, i, cost))
  {
    if i < |s.phase| && s.phase[i].Running? {
      CostRecord(policy, s, i, cost, true);
      CostKept(policy, RecordCost(policy, s, i, cost, true), SendCut(policy, s, i, cost));
    }
  }

  lemma CostStep(policy: Policy, s: State, a: Action)
    requires Budgeted(policy) && CostOk(policy, s) && Counted(policy, s) && Nonnegative(a)
    ensures CostOk(policy, Apply(policy, s, a))
  {
    match a
    case DoLlm(i, cost) => CostLlm(policy, s, i, cost);
    case DoSendCut(i, cost) => CostCut(policy, s, i, cost);
    case DoTerminal(i, outcome) =>
      TerminalKeepsCost(policy, s, i, outcome);
      CostKept(policy, s, Apply(policy, s, a));
    case _ =>
      OtherKeepsCost(policy, s, a);
      CostKept(policy, s, Apply(policy, s, a));
  }

  lemma TerminalKeepsCost(policy: Policy, s: State, i: nat, outcome: Outcome)
    ensures KeepsCost(s, TerminalEvent(policy, s, i, outcome))
  {
  }

  lemma OtherKeepsCost(policy: Policy, s: State, a: Action)
    requires !a.DoLlm? && !a.DoSendCut? && !a.DoTerminal?
    ensures KeepsCost(s, Apply(policy, s, a))
  {
    match a
    case DoEnter(i) => EnterKeepsCost(s, i);
    case DoAdmit(i, adm) => AdmitKeepsCost(s, i, adm);
    case DoTimeoutFrame(i) => FrameKeepsCost(policy, s, i);
    case _ =>
  }

  lemma EnterKeepsCost(s: State, i: nat)
    ensures KeepsCost(s, Enter(s, i))
  {
  }

  lemma AdmitKeepsCost(s: State, i: nat, adm: Admission)
    ensures KeepsCost(s, Admit(s, i, adm))
  {
  }

  lemma FrameKeepsCost(policy: Policy, s: State, i: nat)
    ensures KeepsCost(s, TimeoutFrame(policy, s, i))
  {
  }

  predicate PastCheck(p: Phase) {
    p.Admitting? || p.Running?
  }

  lemma {:induction false} RunKeepsCost(policy: Policy, n: nat, actions: seq<Action>)
    requires Budgeted(policy) && forall k :: 0 <= k < |actions| ==> Nonnegative(actions[k])
    ensures CostOk(policy, Exec(policy, n, actions))
  {
    if actions == [] {
      FreshCost(n);
    } else {
      RunKeepsCost(policy, n, actions[..|actions| - 1]);
      RunKeepsInv(policy, n, actions[..|actions| - 1]);
      CostStep(policy, Exec(policy, n, actions[..|actions| - 1]), actions[|actions| - 1]);
    }
  }

  lemma {:induction false} FreshCost(n: nat)
    ensures Sum(seq(n, _ => 0.0)) == 0.0
  {
    if n > 0 {
      assert seq(n, _ => 0.0)[1..] == seq(n - 1, _ => 0.0);
      FreshCost(n - 1);
    }
  }

  // --- when the budget is breached ---

  // What a step adds to the batch's cost: what an llm.completed of a running item reports.
  function Charged(s: State, a: Action): seq<real> {
    if (a.DoLlm? || a.DoSendCut?) && a.i < |s.phase| && s.phase[a.i].Running? && a.cost.Some? then [a.cost.value]
    else []
  }

  // All the costs a run records, in order.
  function Charges(policy: Policy, n: nat, actions: seq<Action>): seq<real> {
    if actions == [] then []
    else
      var before := actions[..|actions| - 1];
      Charges(policy, n, before) + Charged(Exec(policy, n, before), actions[|actions| - 1])
  }

  // The first k costs reach the budget.
  predicate ReachedBy(policy: Policy, charges: seq<real>, k: nat) {
    1 <= k <= |charges| && policy.maxCost.Some? && Sum(charges[..k]) >= policy.maxCost.value
  }

  ghost predicate BreachExact(policy: Policy, s: State, charges: seq<real>) {
    && s.cost == Sum(charges)
    && (s.budgetExceeded <==> policy.stopOnBudget && exists k :: ReachedBy(policy, charges, k))
  }

  lemma {:induction false} SumSnoc(xs: seq<real>, x: real)
    ensures Sum(xs + [x]) == Sum(xs) + x
  {
    if xs == [] {
      assert [] + [x] == [x] && [x][1..] == [];
    } else {
      assert (xs + [x])[1..] == xs[1..] + [x];
      SumSnoc(xs[1..], x);
    }
  }

  lemma ReachedSnoc(policy: Policy, charges: seq<real>, c: real)
    ensures (exists k :: ReachedBy(policy, charges + [c], k))
            <==> (exists k :: ReachedBy(policy, charges, k))
                 || (policy.maxCost.Some? && Sum(charges) + c >= policy.maxCost.value)
  {
    var more := charges + [c];
    SumSnoc(charges, c);
    assert more[..|more|] == more;
    assert forall k: nat :: k <= |charges| ==> more[..k] == charges[..k];
    assert forall k :: ReachedBy(policy, charges, k) ==> ReachedBy(policy, more, k);
    assert forall k: nat :: ReachedBy(policy, more, k) && k <= |charges| ==> ReachedBy(policy, charges, k);
    assert ReachedBy(policy, more, |more|) <==> policy.maxCost.Some? && Sum(charges) + c >= policy.maxCost.value;
  }

  lemma RecordIsExact(policy: Policy, s: State, i: nat, cost: real, cut: bool, charges: seq<real>)
    requires BreachExact(policy, s, charges) && i < |s.history.itemCost|
    ensures BreachExact(policy, RecordCost(policy, s, i, Some(cost), cut), charges + [cost])
  {
    SumSnoc(charges, cost);
    ReachedSnoc(policy, charges, cost);
  }

  // No cost is recorded and the flag stays.
  ghost predicate SameBudget(s: State, t: State) {
    t.cost == s.cost && t.budgetExceeded == s.budgetExceeded
  }

  lemma OthersSameBudget(policy: Policy, s: State, a: Action)
    requires !a.DoLlm? && !a.DoSendCut?
    ensures SameBudget(s, Apply(policy, s, a))
  {
    if a.DoTerminal? {
      TerminalKeepsCost(policy, s, a.i, a.outcome);
    } else {
      OtherKeepsCost(policy, s, a);
    }
  }

  lemma LlmSameBudget(policy: Policy, s: State, a: Action)
    requires a.DoLlm? || a.DoSendCut?
    ensures var cut := a.DoSendCut? || s.aborted;
            SameBudget(if a.i < |s.phase| && s.phase[a.i].Running? && a.i < |s.history.itemCost|
                       then RecordCost(policy, s, a.i, a.cost, cut) else s,
                       Apply(policy, s, a))
  {
  }

  lemma BreachExactStep(policy: Policy, s: State, a: Action, charges: seq<real>)
    requires BreachExact(policy, s, charges) && |s.history.itemCost| == |s.phase|
    ensures BreachExact(policy, Apply(policy, s, a), charges + Charged(s, a))
  {
    assert charges + [] == charges;
    if a.DoLlm? || a.DoSendCut? {
      LlmSameBudget(policy, s, a);
      if Charged(s, a) != [] {
        RecordIsExact(policy, s, a.i, a.cost.value, a.DoSendCut? || s.aborted, charges);
      }
    } else {
      OthersSameBudget(policy, s, a);
    }
  }

  // In every run of every policy the batch's cost is the sum of the costs recorded; the flag is
  // up exactly when stop_on_budget_exceeded is set and at some point they had reached
  // max_cost_usd; and the frame is out exactly when the flag is up and its send was not cut.
  lemma BreachIffBudgetReached(policy: Policy, n: nat, actions: seq<Action>)
    ensures var s, charges := Exec(policy, n, actions), Charges(policy, n, actions);
            && s.cost == Sum(charges)
            && (s.budgetExceeded <==>
                  policy.stopOnBudget && policy.maxCost.Some?
                  && exists k :: 1 <= k <= |charges| && Sum(charges[..k]) >= policy.maxCost.value)
            && (BudgetExceeded in s.frames <==> s.budgetExceeded && !BreachCut(policy, n, actions))
  {
    CutIsAStep(policy, n, actions);
    BreachExactRun(policy, n, actions);
    RunKeepsInv(policy, n, actions);
    var s, charges := Exec(policy, n, actions), Charges(policy, n, actions);
    assert BreachExact(policy, s, charges) && BreachOk(s);
    if policy.maxCost.Some? {
      assert forall k: nat :: ReachedBy(policy, charges, k)
                              <==> 1 <= k <= |charges| && Sum(charges[..k]) >= policy.maxCost.value;
    }
  }

  lemma {:induction false} BreachExactRun(policy: Policy, n: nat, actions: seq<Action>)
    ensures BreachExact(policy, Exec(policy, n, actions), Charges(policy, n, actions))
  {
    if actions != [] {
      var before, a := actions[..|actions| - 1], actions[|actions| - 1];
      BreachExactRun(policy, n, before);
      RunKeepsInv(policy, n, before);
      BreachExactStep(policy, Exec(policy, n, before), a, Charges(policy, n, before));
    }
  }

  // With costs that are not negative: exactly when something was recorded and it all reaches
  // max_cost_usd.
  lemma BreachIffCostReachesBudget(policy: Policy, n: nat, actions: seq<Action>)
    requires forall k :: 0 <= k < |actions| ==> Nonnegative(actions[k])
    ensures var s, charges := Exec(policy, n, actions), Charges(policy, n, actions);
            s.budgetExceeded <==>
              policy.stopOnBudget && policy.maxCost.Some? && charges != [] && Sum(charges) >= policy.maxCost.value
  {
    BreachIffBudgetReached(policy, n, actions);
    var charges := Charges(policy, n, actions);
    ChargesNonnegative(policy, n, actions);
    assert charges[..|charges|] == charges;
    forall k | 1 <= k <= |charges| ensures Sum(charges[..k]) <= Sum(charges) {
      SumOfPrefix(charges, k);
    }
  }

  lemma {:induction false} ChargesNonnegative(policy: Policy, n: nat, actions: seq<Action>)
    requires forall k :: 0 <= k < |actions| ==> Nonnegative(actions[k])
    ensures forall k :: 0 <= k < |Charges(policy, n, actions)| ==> Charges(policy, n, actions)[k] >= 0.0
  {
    if actions != [] {
      ChargesNonnegative(policy, n, actions[..|actions| - 1]);
    }
  }

  lemma {:induction false} SumOfPrefix(xs: seq<real>, k: nat)
    requires k <= |xs| && forall i :: 0 <= i < |xs| ==> xs[i] >= 0.0
    ensures 0.0 <= Sum(xs[..k]) <= Sum(xs)
  {
    if xs != [] {
      if k == 0 {
        SumOfPrefix(xs[1..], 0);
      } else {
        assert xs[..k][1..] == xs[1..][..k - 1];
        SumOfPrefix(xs[1..], k - 1);
      }
    }
  }

  // --- what ends an item, and what it is told ---

  // A terminal event counts as what its name says.
  lemma TerminalCountsAsNamed(policy: Policy, s: State, i: nat, name: string)
    requires i < |s.phase| && s.phase[i].Running? && !s.aborted
    requires name in {"run.completed", "run.failed", "run.cancelled"}
    ensures var t := Apply(policy, s, DoTerminal(i, OutcomeOf(name)));
            && t.succeeded == s.succeeded + (if name == "run.completed" then 1 else 0)
            && t.failed == s.failed + (if name == "run.failed" then 1 else 0)
            && t.cancelled == s.cancelled + (if name == "run.cancelled" then 1 else 0)
            && t.completed == s.completed + 1
            && s.frames + [Forwarded(i, true)] <= t.frames
    ensures name in TERMINAL_EVENTS
  {
  }

  // An item that ends at the limiter or in admission is cancelled for the reason it is told.
  lemma RefusedForTheReason(s: State, i: nat)
    requires i < |s.phase| && !s.aborted
    ensures s.phase[i].Admitting? ==>
              && Admit(s, i, CanAccept).phase[i].Running? && Admit(s, i, CanAccept).frames == s.frames
              && Admit(s, i, Draining).frames == s.frames + [SyntheticCancel(i, WorkerDrain)]
              && Admit(s, i, Late).frames == s.frames + [SyntheticCancel(i, Timeout)]
              && Admit(s, i, Draining).cancelled == Admit(s, i, Late).cancelled == s.cancelled + 1
    ensures s.phase[i].Queued? && s.permits > 0 ==>
              && (!s.budgetExceeded && !s.failureTripped ==>
                    Enter(s, i).phase[i].Admitting? && Enter(s, i).frames == s.frames)
              && (s.budgetExceeded ==> Enter(s, i).frames == s.frames + [SyntheticCancel(i, BatchBudgetExceeded)])
              && (!s.budgetExceeded && s.failureTripped ==>
                    Enter(s, i).frames == s.frames + [SyntheticCancel(i, BatchFailureRateTripped)])
  {
  }

  // --- the overshoot ---

  // The most that can have been spent before a breach.
  function Ceiling(policy: Policy): real
    requires policy.maxCost.Some?
  {
    if policy.maxCost.value > 0.0 then policy.maxCost.value else 0.0
  }

  // If no item's run costs more than `most`, the batch stays within its budget plus max_parallel
  // such runs, and below that if it has any budget at all, however the runs interleave.
  lemma OvershootBound(policy: Policy, n: nat, actions: seq<Action>, most: real)
    requires Budgeted(policy) && most >= 0.0 && forall k :: 0 <= k < |actions| ==> Nonnegative(actions[k])
    requires forall i :: 0 <= i < |Exec(policy, n, actions).history.itemCost| ==>
                           Exec(policy, n, actions).history.itemCost[i] <= most
    ensures Exec(policy, n, actions).cost <= Ceiling(policy) + Times(policy.maxParallel, most)
    ensures policy.maxCost.value > 0.0 ==>
              Exec(policy, n, actions).cost < policy.maxCost.value + Times(policy.maxParallel, most)
  {
    RunKeepsCost(policy, n, actions);
    RunKeepsInv(policy, n, actions);
    CostOkBound(policy, Exec(policy, n, actions), most);
  }

  lemma CostOkBound(policy: Policy, s: State, most: real)
    requires Budgeted(policy) && CostOk(policy, s) && most >= 0.0
    requires forall i :: 0 <= i < |s.history.itemCost| ==> s.history.itemCost[i] <= most
    ensures s.cost <= Ceiling(policy) + Times(policy.maxParallel, most)
    ensures policy.maxCost.value > 0.0 ==> s.cost < policy.maxCost.value + Times(policy.maxParallel, most)
  {
    TimesGrows(0, policy.maxParallel, most);
    if s.budgetExceeded {
      var costs, at := s.history.itemCost, s.history.atBreach;
      SumSplits(costs, at);
      SumHeldBound(costs, at, most);
      TimesGrows(Count(KHolding, at), policy.maxParallel, most);
    }
  }

  // No item's run of this batch costs more than `most`.
  ghost predicate Priced(policy: Policy, n: nat, actions: seq<Action>, most: real) {
    && most >= 0.0 && (forall k :: 0 <= k < |actions| ==> Nonnegative(actions[k]))
    && forall i :: 0 <= i < |Exec(policy, n, actions).history.itemCost| ==>
       Exec(policy, n, actions).history.itemCost[i] <= most
  }

  // The budget holds to within one in-flight item's cost, whatever the run.
  ghost predicate WithinOneItem(policy: Policy)
    requires policy.maxCost.Some?
  {
    forall n: nat, actions: seq<Action>, most: real ::
      Priced(policy, n, actions, most) ==> Exec(policy, n, actions).cost <= policy.maxCost.value + most
  }

  // That is so exactly for the policies that run one item at a time, with a budget that is not
  // negative. With two at once, both past the flag check, each can cost as much as breaks the
  // budget.
  lemma WithinOneItemIffSequential(policy: Policy)
    requires Budgeted(policy) && policy.maxParallel >= 1
    ensures WithinOneItem(policy) <==> policy.maxParallel == 1 && policy.maxCost.value >= 0.0
  {
    if policy.maxCost.value < 0.0 {
      assert Exec(policy, 0, []).cost == 0.0;
      assert Priced(policy, 0, [], 0.0);
    } else if policy.maxParallel == 1 {
      forall n: nat, actions: seq<Action>, most: real | Priced(policy, n, actions, most)
        ensures Exec(policy, n, actions).cost <= policy.maxCost.value + most
      {
        OvershootBound(policy, n, actions, most);
        assert Times(1, most) == most;
      }
    } else {
      var c := policy.maxCost.value + 1.0;
      var actions := TwoBreaches(c);
      TwoBreachesCost(policy, c);
      assert Priced(policy, 2, actions, c);
    }
  }

  function TwoBreaches(c: real): seq<Action> {
    [DoEnter(0), DoEnter(1), DoAdmit(0, CanAccept), DoAdmit(1, CanAccept)] + [DoLlm(0, Some(c))] + [DoLlm(1, Some(c))]
  }

  lemma TwoBreachesCost(policy: Policy, c: real)
    requires Budgeted(policy) && policy.maxParallel >= 2
    ensures var s := Exec(policy, 2, TwoBreaches(c)); s.cost == c + c && s.history.itemCost == [c, c]
  {
    var started := [DoEnter(0), DoEnter(1), DoAdmit(0, CanAccept), DoAdmit(1, CanAccept)];
    TwoStarted(policy);
    ExecSnoc(policy, 2, started, DoLlm(0, Some(c)));
    ExecSnoc(policy, 2, started + [DoLlm(0, Some(c))], DoLlm(1, Some(c)));
  }

  lemma TwoStarted(policy: Policy)
    requires policy.maxParallel >= 2
    ensures var s := Exec(policy, 2, [DoEnter(0), DoEnter(1), DoAdmit(0, CanAccept), DoAdmit(1, CanAccept)]);
            s.phase == [Running, Running] && s.history.itemCost == [0.0, 0.0] && s.cost == 0.0 && !s.aborted
  {
    var a, b, c, d := DoEnter(0), DoEnter(1), DoAdmit(0, CanAccept), DoAdmit(1, CanAccept);
    ExecSnoc(policy, 2, [], a);
    ExecSnoc(policy, 2, [a], b);
    ExecSnoc(policy, 2, [a, b], c);
    ExecSnoc(policy, 2, [a, b, c], d);
    assert [] + [a] == [a] && [a] + [b] == [a, b] && [a, b] + [c] == [a, b, c] && [a, b, c] + [d] == [a, b, c, d];
  }

  // --- after an abort ---

  // Once the client is gone nothing is sent and the batch stays aborted; an item that is refused
  // then is still counted, and unwinds.
  lemma AbortedIsSilent(policy: Policy, s: State, a: Action)
    requires s.aborted
    ensures Apply(policy, s, a).frames == s.frames && Apply(policy, s, a).aborted
    ensures a.DoAdmit? && a.i < |s.phase| && s.phase[a.i].Admitting? && !a.a.CanAccept? ==>
              var t := Apply(policy, s, a);
              t.phase[a.i] == Torn(Completed) && t.cancelled == s.cancelled + 1 && t.completed == s.completed + 1
  {
  }

  // An abort takes hold at once, and for good: an item the limiter lets in then does nothing, and
  // the teardown ends any item that has begun, with its permit back.
  lemma AbortTakesHold(policy: Policy, s: State, i: nat)
    requires i < |s.phase|
    ensures Apply(policy, s, DoAbort) == s.(aborted := true)
    ensures s.aborted && s.phase[i].Queued? && s.permits > 0 ==>
              Apply(policy, s, DoEnter(i)) == s.(phase := s.phase[i := Skipped])
    ensures s.aborted && s.phase[i].Queued? ==> Apply(policy, s, DoTear(i)).phase[i].Torn?
    ensures s.aborted && (s.phase[i].Admitting? || s.phase[i].Running? || s.phase[i].TimedOut?) ==>
              var t := Apply(policy, s, DoTear(i));
              t.phase[i].Torn? && t.permits == s.permits + 1 && i !in t.inflight
  {
  }

  // A run that can still start, or has started.
  ghost predicate MayRun(policy: Policy, n: nat, actions: seq<Action>, i: nat) {
    exists later: seq<Action> :: Runs(Exec(policy, n, actions + later), i)
  }

  predicate Runs(s: State, i: nat) {
    i < |s.phase| && s.phase[i].Running?
  }

  predicate Admitted(s: State, i: nat) {
    i < |s.phase| && (s.phase[i].Running? || s.phase[i].Admitting?)
  }

  // In an aborted batch a run starts exactly if its item was already waiting for admission: the
  // admission loop does not look at the abort again. Nothing behind the limiter starts.
  lemma StartsAfterAbort(policy: Policy, n: nat, actions: seq<Action>, i: nat)
    requires Exec(policy, n, actions).aborted
    ensures MayRun(policy, n, actions, i) <==> Admitted(Exec(policy, n, actions), i)
  {
    var s := Exec(policy, n, actions);
    if Admitted(s, i) {
      ExecSnoc(policy, n, actions, DoAdmit(i, CanAccept));
      assert Runs(Exec(policy, n, actions + [DoAdmit(i, CanAccept)]), i);
    }
    forall later: seq<Action> | Runs(Exec(policy, n, actions + later), i) ensures Admitted(s, i) {
      StaysUnadmitted(policy, n, actions, later, i);
    }
  }

  lemma {:induction false} StaysUnadmitted(policy: Policy, n: nat, actions: seq<Action>, later: seq<Action>, i: nat)
    requires Exec(policy, n, actions).aborted
    ensures Exec(policy, n, actions + later).aborted
    ensures Admitted(Exec(policy, n, actions + later), i) ==> Admitted(Exec(policy, n, actions), i)
  {
    if later == [] {
      assert actions + later == actions;
    } else {
      var shorter, a := later[..|later| - 1], later[|later| - 1];
      StaysUnadmitted(policy, n, actions, shorter, i);
      assert actions + later == actions + shorter + [a];
      ExecSnoc(policy, n, actions + shorter, a);
      AbortedStep(policy, Exec(policy, n, actions + shorter), a, i);
    }
  }

  ghost predicate AdmitsNobody(s: State, t: State) {
    t.aborted && forall i: nat :: Admitted(t, i) ==> Admitted(s, i)
  }

  lemma AbortedStep(policy: Policy, s: State, a: Action, i: nat)
    requires s.aborted
    ensures AdmitsNobody(s, Apply(policy, s, a))
  {
    match a
    case DoLlm(j, cost) => AbortedLlm(policy, s, j, cost);
    case DoSendCut(j, cost) => AbortedCut(policy, s, j, cost);
    case DoTerminal(j, outcome) => assert AdmitsNobody(s, TerminalEvent(policy, s, j, outcome));
    case DoTimeoutFrame(j) => assert AdmitsNobody(s, TimeoutFrame(policy, s, j));
    case _ =>
  }

  lemma AbortedLlm(policy: Policy, s: State, j: nat, cost: Option<real>)
    requires s.aborted
    ensures AdmitsNobody(s, LlmCompleted(policy, s, j, cost))
  {
  }

  lemma AbortedCut(policy: Policy, s: State, j: nat, cost: Option<real>)
    requires s.aborted
    ensures AdmitsNobody(s, SendCut(policy, s, j, cost))
  {
  }

  // --- an unannounced cancellation ---

  const ONE_AT_A_TIME := Policy(1, Some(1.0), true, None)

  // A breach whose send is cut short: the second item is cancelled for a breach the client was
  // never told of.
  lemma UnannouncedCancellation()
    ensures var s0 := Apply(ONE_AT_A_TIME, Apply(ONE_AT_A_TIME, Init(ONE_AT_A_TIME, 2), DoEnter(0)),
                            DoAdmit(0, CanAccept));
            var s1 := Apply(ONE_AT_A_TIME, Apply(ONE_AT_A_TIME, s0, DoSendCut(0, Some(1.0))), DoTimeoutFrame(0));
            Apply(ONE_AT_A_TIME, s1, DoEnter(1)).frames
            == [SyntheticCancel(0, Timeout), SyntheticCancel(1, BatchBudgetExceeded)]
  {
  }
}
