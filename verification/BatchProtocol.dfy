// What every interleaving of a batch keeps: the counters against the items' states, the
// order of the breach frame and the cancellations it triggers, the number of runs that still
// start once a flag is up, the cost overshoot, and one terminal frame per item.
module BatchProtocol {
  import opened Events
  import opened Batch

  // --- counting items by where they stand ---

  datatype Kind = KHolding | KAdmitting | KDone | KSucceeded | KFailed | KCancelled | KTimedOut | KTornHalf | KTornWhole

  predicate Is(k: Kind, p: Phase) {
    match k
    case KHolding => Holding(p)
    case KAdmitting => p.Admitting?
    case KDone => p.Done?
    case KSucceeded => p == Done(Succeeded)
    case KFailed => p == Done(Failed)
    case KCancelled => p == Done(Cancelled)
    case KTimedOut => p.TimedOut?
    case KTornHalf => p == Torn(OutcomeCounted)
    case KTornWhole => p == Torn(Completed)
  }

  function One(k: Kind, p: Phase): nat {
    if Is(k, p) then 1 else 0
  }

  function Count(k: Kind, s: seq<Phase>): nat {
    if s == [] then 0 else One(k, s[0]) + Count(k, s[1..])
  }

  lemma {:induction false} CountUpdate(k: Kind, s: seq<Phase>, i: nat, p: Phase)
    requires i < |s|
    ensures Count(k, s[i := p]) == Count(k, s) - One(k, s[i]) + One(k, p)
  {
    if i == 0 {
      assert s[0 := p][1..] == s[1..];
    } else {
      assert s[i := p][1..] == s[1..][i - 1 := p];
      CountUpdate(k, s[1..], i - 1, p);
    }
  }

  lemma CountsUpdate(s: seq<Phase>, i: nat, p: Phase)
    requires i < |s|
    ensures forall k :: Count(k, s[i := p]) == Count(k, s) - One(k, s[i]) + One(k, p)
  {
    forall k ensures Count(k, s[i := p]) == Count(k, s) - One(k, s[i]) + One(k, p) {
      CountUpdate(k, s, i, p);
    }
  }

  lemma {:induction false} CountBounds(s: seq<Phase>)
    ensures Count(KDone, s) == Count(KSucceeded, s) + Count(KFailed, s) + Count(KCancelled, s)
    ensures Count(KAdmitting, s) <= Count(KHolding, s)
    ensures Count(KDone, s) + Count(KTornWhole, s) <= |s|
    ensures Count(KDone, s) == |s| <==> forall i :: 0 <= i < |s| ==> s[i].Done?
  {
    if s != [] {
      CountBounds(s[1..]);
      if s[0].Done? {
        assert s[0].outcome.Succeeded? || s[0].outcome.Failed? || s[0].outcome.Cancelled?;
      }
      assert forall i :: 1 <= i < |s| ==> s[i] == s[1..][i - 1];
    }
  }

  lemma {:induction false} CountFresh(k: Kind, n: nat)
    ensures Count(k, seq(n, _ => Queued)) == 0
  {
    if n > 0 {
      assert seq(n, _ => Queued)[1..] == seq(n - 1, _ => Queued);
      CountFresh(k, n - 1);
    }
  }

  // --- conservation ---

  ghost predicate Counted(policy: Policy, s: State) {
    && s.permits >= 0 && s.permits + Count(KHolding, s.phase) == policy.maxParallel
    && s.completed == Count(KDone, s.phase) + Count(KTornWhole, s.phase)
    && s.succeeded == Count(KSucceeded, s.phase)
    && s.failed == Count(KFailed, s.phase)
    && s.cancelled == Count(KCancelled, s.phase) + Count(KTimedOut, s.phase) + Count(KTornHalf, s.phase)
       + Count(KTornWhole, s.phase)
    && s.inflight == (set i | 0 <= i < |s.phase| && s.phase[i].Running?)
    && (!s.aborted ==> forall i :: 0 <= i < |s.phase| ==> !s.phase[i].Skipped? && !s.phase[i].Torn?)
    && |s.history.itemCost| == |s.phase|
  }

  // Whether an item in this phase is among those counted as cancelled.
  function Cancels(p: Phase): nat {
    One(KCancelled, p) + One(KTimedOut, p) + One(KTornHalf, p) + One(KTornWhole, p)
  }

  // One item moves from one phase to another and the counters follow it.
  ghost predicate Follows(s: State, t: State, i: nat, p: Phase)
    requires i < |s.phase|
  {
    var q := s.phase[i];
    && t.phase == s.phase[i := p]
    && t.permits == s.permits + One(KHolding, q) - One(KHolding, p)
    && t.completed == s.completed - One(KDone, q) - One(KTornWhole, q) + One(KDone, p) + One(KTornWhole, p)
    && t.succeeded == s.succeeded - One(KSucceeded, q) + One(KSucceeded, p)
    && t.failed == s.failed - One(KFailed, q) + One(KFailed, p)
    && t.cancelled == s.cancelled - Cancels(q) + Cancels(p)
    && t.inflight == (if p.Running? then s.inflight + {i} else s.inflight - {i})
    && t.aborted == s.aborted && (p.Skipped? || p.Torn? ==> s.aborted)
    && |t.history.itemCost| == |s.history.itemCost|
  }

  lemma CountedFollows(policy: Policy, s: State, t: State, i: nat, p: Phase)
    requires Counted(policy, s) && i < |s.phase| && Follows(s, t, i, p) && t.permits >= 0
    ensures Counted(policy, t)
  {
    CountsUpdate(s.phase, i, p);
    assert forall k :: 0 <= k < |s.phase| && k != i ==> t.phase[k] == s.phase[k];
  }

  // An item that stays where it is.
  lemma Stays(policy: Policy, s: State, i: nat)
    requires Counted(policy, s) && i < |s.phase|
    ensures Follows(s, s, i, s.phase[i])
  {
    assert s.phase[i := s.phase[i]] == s.phase;
  }

  // One step of item i, if it changes anything, moves that item only.
  ghost predicate Moves(s: State, t: State, i: nat)
    requires i < |s.phase|
  {
    |t.phase| == |s.phase| && Follows(s, t, i, t.phase[i]) && t.permits >= 0
  }

  lemma EnterMoves(policy: Policy, s: State, i: nat)
    requires Counted(policy, s) && i < |s.phase|
    ensures Moves(s, Enter(s, i), i)
  {
    Stays(policy, s, i);
    if s.phase[i].Queued? && s.permits > 0 && !s.aborted && Tripped(s) {
      LateMoves(policy, s, i, if s.budgetExceeded then BatchBudgetExceeded else BatchFailureRateTripped);
    }
  }

  lemma LateMoves(policy: Policy, s: State, i: nat, reason: Reason)
    requires Counted(policy, s) && i < |s.phase| && s.phase[i].Queued? && !s.aborted
    ensures Moves(s, FastFail(s.(permits := s.permits - 1), i, reason), i)
  {
  }

  lemma FastFailMoves(policy: Policy, s: State, i: nat, reason: Reason)
    requires Counted(policy, s) && i < |s.phase| && s.phase[i].Admitting?
    ensures Moves(s, FastFail(s, i, reason), i)
  {
  }

  lemma AdmitMoves(policy: Policy, s: State, i: nat, adm: Admission)
    requires Counted(policy, s) && i < |s.phase|
    ensures Moves(s, Admit(s, i, adm), i)
  {
    Stays(policy, s, i);
    if s.phase[i].Admitting? && !adm.CanAccept? {
      FastFailMoves(policy, s, i, if adm.Draining? then WorkerDrain else Timeout);
    }
  }

  lemma ForwardMoves(policy: Policy, s: State, r: State, i: nat)
    requires Counted(policy, s) && i < |s.phase| && s.phase[i].Running?
    requires r == s.(cost := r.cost, budgetExceeded := r.budgetExceeded, frames := r.frames, history := r.history)
    requires |r.history.itemCost| == |s.history.itemCost|
    ensures Moves(s, Forward(r, i, false), i)
  {
    Stays(policy, s, i);
  }

  lemma LlmMoves(policy: Policy, s: State, i: nat, cost: Option<real>)
    requires Counted(policy, s) && i < |s.phase|
    ensures Moves(s, LlmCompleted(policy, s, i, cost), i)
  {
    Stays(policy, s, i);
    if s.phase[i].Running? {
      ForwardMoves(policy, s, RecordCost(policy, s, i, cost, s.aborted), i);
    }
  }

  lemma OtherMoves(policy: Policy, s: State, i: nat)
    requires Counted(policy, s) && i < |s.phase|
    ensures Moves(s, OtherEvent(s, i), i)
  {
    Stays(policy, s, i);
  }

  lemma EndedMoves(policy: Policy, s: State, r: State, i: nat, outcome: Outcome)
    requires Counted(policy, s) && i < |s.phase| && s.phase[i].Running? && r == s.(frames := r.frames)
    ensures Moves(s, Ended(policy, r, i, outcome), i)
  {
  }

  lemma TerminalMoves(policy: Policy, s: State, i: nat, outcome: Outcome)
    requires Counted(policy, s) && i < |s.phase|
    ensures Moves(s, TerminalEvent(policy, s, i, outcome), i)
  {
    Stays(policy, s, i);
    if s.phase[i].Running? && !s.aborted {
      EndedMoves(policy, s, Forward(s, i, true), i, outcome);
    }
  }

  lemma TimeoutMoves(policy: Policy, s: State, i: nat)
    requires Counted(policy, s) && i < |s.phase|
    ensures Moves(s, RunTimedOut(s, i), i)
  {
    Stays(policy, s, i);
  }

  lemma SendCutMoves(policy: Policy, s: State, i: nat, cost: Option<real>)
    requires Counted(policy, s) && i < |s.phase|
    ensures Moves(s, SendCut(policy, s, i, cost), i)
  {
    Stays(policy, s, i);
    if s.phase[i].Running? {
      CutMoves(policy, s, RecordCost(policy, s, i, cost, true), i);
    }
  }

  lemma CutMoves(policy: Policy, s: State, r: State, i: nat)
    requires Counted(policy, s) && i < |s.phase| && s.phase[i].Running?
    requires r == s.(cost := r.cost, budgetExceeded := r.budgetExceeded, frames := r.frames, history := r.history)
    requires |r.history.itemCost| == |s.history.itemCost|
    ensures Moves(s, RunTimedOut(r, i), i)
  {
  }

  lemma TimeoutFrameMoves(policy: Policy, s: State, i: nat)
    requires Counted(policy, s) && i < |s.phase|
    ensures Moves(s, TimeoutFrame(policy, s, i), i)
  {
    Stays(policy, s, i);
    if s.phase[i].TimedOut? && !s.aborted {
      CompletesMoves(policy, s, s.(frames := s.frames + [SyntheticCancel(i, Timeout)]), i);
    }
  }

  lemma CompletesMoves(policy: Policy, s: State, r: State, i: nat)
    requires Counted(policy, s) && i < |s.phase| && s.phase[i].TimedOut? && r == s.(frames := r.frames)
    ensures Moves(s, Complete(policy, r, i, Cancelled), i)
  {
  }

  lemma TearMoves(policy: Policy, s: State, i: nat)
    requires Counted(policy, s) && i < |s.phase|
    ensures Moves(s, Tear(s, i), i)
  {
    Stays(policy, s, i);
  }

  lemma CountedStep(policy: Policy, s: State, a: Action)
    requires Counted(policy, s)
    ensures Counted(policy, Apply(policy, s, a)) && |Apply(policy, s, a).phase| == |s.phase|
  {
    if !a.DoAbort? && a.i < |s.phase| {
      MovesOneItem(policy, s, a);
      var t := Apply(policy, s, a);
      CountedFollows(policy, s, t, a.i, t.phase[a.i]);
    }
  }

  lemma MovesOneItem(policy: Policy, s: State, a: Action)
    requires Counted(policy, s) && !a.DoAbort? && a.i < |s.phase|
    ensures Moves(s, Apply(policy, s, a), a.i)
  {
    match a
    case DoEnter(i) => EnterMoves(policy, s, i);
    case DoAdmit(i, adm) => AdmitMoves(policy, s, i, adm);
    case DoLlm(i, cost) => LlmMoves(policy, s, i, cost);
    case DoOther(i) => OtherMoves(policy, s, i);
    case DoTerminal(i, outcome) => TerminalMoves(policy, s, i, outcome);
    case DoTimeout(i) => TimeoutMoves(policy, s, i);
    case DoSendCut(i, cost) => SendCutMoves(policy, s, i, cost);
    case DoTimeoutFrame(i) => TimeoutFrameMoves(policy, s, i);
    case DoTear(i) => TearMoves(policy, s, i);
  }

  // --- the breach frame and the cancellations it triggers ---

  predicate IsBudgetCancel(f: Frame) {
    f.SyntheticCancel? && f.reason.BatchBudgetExceeded?
  }

  // The breach frame is there, once, before every cancellation it triggers.
  ghost predicate BreachFirst(frames: seq<Frame>, at: nat) {
    && at < |frames| && frames[at] == BudgetExceeded
    && (forall k :: 0 <= k < |frames| && frames[k] == BudgetExceeded ==> k == at)
    && (forall k :: 0 <= k < |frames| && IsBudgetCancel(frames[k]) ==> at < k)
  }

  ghost predicate NoBreach(frames: seq<Frame>) {
    forall k :: 0 <= k < |frames| ==> frames[k] != BudgetExceeded
  }

  ghost predicate BreachOk(s: State) {
    if !s.budgetExceeded then
      !s.history.cut && NoBreach(s.frames) && forall k :: 0 <= k < |s.frames| ==> !IsBudgetCancel(s.frames[k])
    else if s.history.cut then NoBreach(s.frames)
    else BreachFirst(s.frames, s.history.breachAt)
  }

  // Frames other than a breach are appended; a budget cancellation only once the flag is up.
  lemma BreachGrows(s: State, t: State, f: Frame)
    requires BreachOk(s) && t.frames == s.frames + [f] && f != BudgetExceeded
    requires t.budgetExceeded == s.budgetExceeded
    requires t.history.cut == s.history.cut && t.history.breachAt == s.history.breachAt
    requires IsBudgetCancel(f) ==> s.budgetExceeded
    ensures BreachOk(t)
  {
  }

  lemma BreachForward(s: State, i: nat, terminal: bool)
    requires BreachOk(s) && i < |s.phase|
    ensures BreachOk(Forward(s, i, terminal))
  {
  }

  lemma BreachComplete(policy: Policy, s: State, i: nat, outcome: Outcome)
    requires BreachOk(s) && i < |s.phase|
    ensures BreachOk(Complete(policy, s, i, outcome))
  {
  }

  lemma BreachRecord(policy: Policy, s: State, i: nat, cost: Option<real>, cut: bool)
    requires BreachOk(s) && i < |s.history.itemCost|
    ensures BreachOk(RecordCost(policy, s, i, cost, cut))
  {
  }

  lemma BreachEnter(s: State, i: nat)
    requires BreachOk(s)
    ensures BreachOk(Enter(s, i))
  {
  }

  lemma BreachAdmit(s: State, i: nat, adm: Admission)
    requires BreachOk(s)
    ensures BreachOk(Admit(s, i, adm))
  {
  }

  lemma BreachStep(policy: Policy, s: State, a: Action)
    requires BreachOk(s) && |s.history.itemCost| == |s.phase|
    ensures BreachOk(Apply(policy, s, a))
  {
    match a
    case DoEnter(i) => BreachEnter(s, i);
    case DoAdmit(i, adm) => BreachAdmit(s, i, adm);
    case DoLlm(i, cost) => BreachLlm(policy, s, i, cost);
    case DoOther(i) => BreachOther(s, i);
    case DoTerminal(i, outcome) => BreachTerminalEvent(policy, s, i, outcome);
    case DoTimeout(i) =>
    case DoSendCut(i, cost) => BreachSendCut(policy, s, i, cost);
    case DoTimeoutFrame(i) => BreachTimeoutFrame(policy, s, i);
    case DoAbort =>
    case DoTear(i) =>
  }

  lemma BreachLlm(policy: Policy, s: State, i: nat, cost: Option<real>)
    requires BreachOk(s)
    ensures BreachOk(LlmCompleted(policy, s, i, cost))
  {
    if i < |s.phase| && i < |s.history.itemCost| {
      BreachRecord(policy, s, i, cost, s.aborted);
      BreachForward(RecordCost(policy, s, i, cost, s.aborted), i, false);
    }
  }

  lemma BreachOther(s: State, i: nat)
    requires BreachOk(s)
    ensures BreachOk(OtherEvent(s, i))
  {
    if i < |s.phase| {
      BreachForward(s, i, false);
    }
  }

  lemma BreachTerminalEvent(policy: Policy, s: State, i: nat, outcome: Outcome)
    requires BreachOk(s)
    ensures BreachOk(TerminalEvent(policy, s, i, outcome))
  {
    if i < |s.phase| {
      BreachForward(s, i, true);
      BreachTerminal(policy, Forward(s, i, true), i, outcome);
    }
  }

  lemma BreachSendCut(policy: Policy, s: State, i: nat, cost: Option<real>)
    requires BreachOk(s)
    ensures BreachOk(SendCut(policy, s, i, cost))
  {
    if i < |s.history.itemCost| {
      BreachRecord(policy, s, i, cost, true);
    }
  }

  lemma BreachTimeoutFrame(policy: Policy, s: State, i: nat)
    requires BreachOk(s)
    ensures BreachOk(TimeoutFrame(policy, s, i))
  {
    if i < |s.phase| {
      var u := s.(frames := s.frames + [SyntheticCancel(i, Timeout)]);
      BreachGrows(s, u, SyntheticCancel(i, Timeout));
      BreachComplete(policy, u, i, Cancelled);
    }
  }

  lemma BreachTerminal(policy: Policy, s: State, i: nat, outcome: Outcome)
    requires BreachOk(s) && i < |s.phase|
    ensures BreachOk(Ended(policy, s, i, outcome))
  {
  }

  // --- runs that still start once a flag is up ---

  ghost predicate StartsOk(policy: Policy, s: State) {
    if Tripped(s) then s.history.startsAfter + Count(KAdmitting, s.phase) < policy.maxParallel
    else s.history.startsAfter == 0
  }

  // An item that trips a flag holds a permit and is past its admission.
  lemma {:induction false} AdmittingBelowHolding(s: seq<Phase>, i: nat)
    requires i < |s| && Holding(s[i]) && !s[i].Admitting?
    ensures Count(KAdmitting, s) < Count(KHolding, s)
  {
    if i == 0 {
      CountBounds(s[1..]);
    } else {
      AdmittingBelowHolding(s[1..], i - 1);
    }
  }

  lemma StartsStep(policy: Policy, s: State, a: Action)
    requires Counted(policy, s) && StartsOk(policy, s)
    ensures StartsOk(policy, Apply(policy, s, a))
  {
    var t := Apply(policy, s, a);
    if !a.DoAbort? && a.i < |s.phase| {
      MovesOneItem(policy, s, a);
      CountsUpdate(s.phase, a.i, t.phase[a.i]);
      if Tripped(t) && !Tripped(s) {
        TripsWhileHolding(policy, s, a);
        AdmittingBelowHolding(s.phase, a.i);
      } else {
        StartsCount(policy, s, a);
      }
    }
  }

  lemma TripsWhileHolding(policy: Policy, s: State, a: Action)
    requires !a.DoAbort? && a.i < |s.phase| && |s.history.itemCost| == |s.phase|
    requires Tripped(Apply(policy, s, a)) && !Tripped(s)
    ensures Holding(s.phase[a.i]) && !s.phase[a.i].Admitting?
    ensures var t := Apply(policy, s, a); t.history.startsAfter == s.history.startsAfter && !t.phase[a.i].Admitting?
  {
  }

  // A step of item i starts at most that item, and then takes it out of admission.
  ghost predicate StartsOne(s: State, t: State, i: nat)
    requires i < |s.phase|
  {
    && |t.phase| == |s.phase|
    && (Tripped(s) ==> Tripped(t) && t.history.startsAfter + One(KAdmitting, t.phase[i])
                                     <= s.history.startsAfter + One(KAdmitting, s.phase[i]))
    && (!Tripped(t) ==> t.history.startsAfter == s.history.startsAfter)
  }

  lemma StartsCount(policy: Policy, s: State, a: Action)
    requires !a.DoAbort? && a.i < |s.phase| && |s.history.itemCost| == |s.phase|
    ensures StartsOne(s, Apply(policy, s, a), a.i)
  {
    match a
    case DoEnter(i) => assert StartsOne(s, Enter(s, i), i);
    case DoAdmit(i, adm) => assert StartsOne(s, Admit(s, i, adm), i);
    case DoLlm(i, cost) => StartsRecord(policy, s, i, cost, s.aborted);
    case DoSendCut(i, cost) => StartsRecord(policy, s, i, cost, true);
    case DoTerminal(i, outcome) => StartsTerminal(policy, s, i, outcome);
    case _ =>
  }

  lemma StartsRecord(policy: Policy, s: State, i: nat, cost: Option<real>, cut: bool)
    requires i < |s.phase| == |s.history.itemCost|
    ensures var t := RecordCost(policy, s, i, cost, cut);
            StartsOne(s, t, i) && t.history.startsAfter == s.history.startsAfter && t.phase == s.phase
  {
  }

  lemma StartsTerminal(policy: Policy, s: State, i: nat, outcome: Outcome)
    requires i < |s.phase|
    ensures StartsOne(s, TerminalEvent(policy, s, i, outcome), i)
  {
  }

  // --- one terminal frame per item ---

  predicate EndsItem(f: Frame, i: nat) {
    (f.SyntheticCancel? && f.item == i) || (f.Forwarded? && f.item == i && f.terminal)
  }

  function Terminals(frames: seq<Frame>, i: nat): nat {
    if frames == [] then 0
    else Terminals(frames[..|frames| - 1], i) + if EndsItem(frames[|frames| - 1], i) then 1 else 0
  }

  ghost predicate TerminalsOk(s: State) {
    forall i :: 0 <= i < |s.phase| ==> Terminals(s.frames, i) == One(KDone, s.phase[i])
  }
}
