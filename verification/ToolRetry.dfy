// core/tool.py: the retry loop around a tool handler. What the handler, the connection
// accessor and the scheduler do at each run is the environment's choice.
module ToolRetry {
  import opened Multiples

  datatype Backoff = Constant | Linear | Exponential

  datatype Policy = Policy(maxAttempts: int, backoff: Backoff, initialDelay: real, maxDelay: real,
                           retryable: set<string>)

  predicate ValidPolicy(p: Policy) {
    p.maxAttempts >= 1 && p.initialDelay > 0.0 && p.maxDelay > 0.0
  }

  // --- delay_for ---

  function Pow2(n: nat): (p: int)
    ensures p >= 1
  {
    if n == 0 then 1 else 2 * Pow2(n - 1)
  }

  function DelayFor(p: Policy, attempt: int): real
    requires attempt >= 1
  {
    var delay := match p.backoff
      case Constant => p.initialDelay
      case Linear => p.initialDelay * attempt as real
      case Exponential => p.initialDelay * Pow2(attempt - 1) as real;
    if delay <= p.maxDelay then delay else p.maxDelay
  }

  lemma LargerMultiple(d: real, m: int, n: int)
    requires d > 0.0 && 1 <= m <= n
    ensures 0.0 < d * m as real <= d * n as real
  {
    assert d * n as real - d * m as real == d * (n - m) as real;
  }

  function Least(x: real, y: real): real {
    if x <= y then x else y
  }

  // Delays are positive and never above the limit; up to it they start at the initial delay and
  // stay, grow by it, or double from one retry to the next.
  lemma DelaysGrowToTheLimit(p: Policy, attempt: int)
    requires ValidPolicy(p) && attempt >= 1
    ensures 0.0 < DelayFor(p, attempt) <= DelayFor(p, attempt + 1) <= p.maxDelay
    ensures DelayFor(p, 1) == Least(p.initialDelay, p.maxDelay)
    ensures DelayFor(p, attempt + 1) == match p.backoff
                                        case Constant => DelayFor(p, attempt)
                                        case Linear => Least(DelayFor(p, attempt) + p.initialDelay, p.maxDelay)
                                        case Exponential => Least(2.0 * DelayFor(p, attempt), p.maxDelay)
  {
    LargerMultiple(p.initialDelay, attempt, attempt + 1);
    LargerMultiple(p.initialDelay, Pow2(attempt - 1), Pow2(attempt));
    assert p.initialDelay * (attempt + 1) as real == p.initialDelay * attempt as real + p.initialDelay;
    assert p.initialDelay * Pow2(attempt) as real == 2.0 * (p.initialDelay * Pow2(attempt - 1) as real);
  }

  // --- the loop ---

  // How one run of the handler ends, after _one_attempt has wrapped it.
  datatype Outcome = Returned(output: string) | NeedsApproval | AuthFails | Fails(error: string) | TaskCancelled

  // What on_auth_error() does when it is asked.
  datatype Refresh = Evicted | NothingEvicted | RefreshRaises | RefreshCancelled

  // What happens while the loop backs off.
  datatype Pause = Slept | RunCancelledMeanwhile | PauseCancelled

  datatype Attempt = Attempt(outcome: Outcome, refresh: Refresh, pause: Pause)

  // Escaped: an exception that is no FoundryError.
  datatype Final = Value(output: string) | Paused | Error(name: string) | Cancelled | Escaped

  // runs: handler runs; count: what the tracker holds; waited: backoff asked for; authAt: the
  // run after which the one auth retry was made, 0 if none.
  datatype Ended = Ended(final: Final, runs: nat, count: nat, waited: real, authAt: nat)

  const AUTH_ERROR := "ConnectionAuthError"
  const RUN_CANCELLED := "RunCancelled"

  // The loop from the top, with `attempt` attempts and `runs` handler runs behind it.
  function Loop(p: Policy, authRetry: bool, env: nat -> Attempt, attempt: nat, runs: nat, waited: real,
                authAt: nat): Ended
    decreases if authAt == 0 then 1 else 0, if attempt < p.maxAttempts then p.maxAttempts - attempt else 0
  {
    var attempt, run := attempt + 1, env(runs);
    var runs := runs + 1;
    match run.outcome
    case Returned(output) => Ended(Value(output), runs, attempt - 1, waited, authAt)
    case NeedsApproval => Ended(Paused, runs, attempt - 1, waited, authAt)
    case TaskCancelled => Ended(Cancelled, runs, attempt - 1, waited, authAt)
    case AuthFails =>
      if authRetry && authAt == 0 then
        match run.refresh
        case Evicted => Loop(p, authRetry, env, attempt, runs, waited, runs)
        case NothingEvicted => Ended(Error(AUTH_ERROR), runs, attempt - 1, waited, authAt)
        case RefreshRaises => Ended(Escaped, runs, attempt - 1, waited, authAt)
        case RefreshCancelled => Ended(Cancelled, runs, attempt - 1, waited, authAt)
      else Ended(Error(AUTH_ERROR), runs, attempt - 1, waited, authAt)
    case Fails(error) =>
      if error !in p.retryable || attempt >= p.maxAttempts then Ended(Error(error), runs, attempt - 1, waited, authAt)
      else
        var waited := waited + DelayFor(p, attempt);
        match run.pause
        case Slept => Loop(p, authRetry, env, attempt, runs, waited, authAt)
        case RunCancelledMeanwhile => Ended(Error(RUN_CANCELLED), runs, attempt - 1, waited, authAt)
        case PauseCancelled => Ended(Cancelled, runs, attempt - 1, waited, authAt)
  }

  function RunWithRetries(p: Policy, authRetry: bool, env: nat -> Attempt): Ended {
    Loop(p, authRetry, env, 0, 0, 0.0, 0)
  }

  method RunHandler(p: Policy, authRetry: bool, env: nat -> Attempt)
    returns (final: Final, count: nat, ghost waited: real, ghost authAt: nat)
    ensures final == RunWithRetries(p, authRetry, env).final && count == RunWithRetries(p, authRetry, env).count
    ensures Ended(final, count + 1, count, waited, authAt) == RunWithRetries(p, authRetry, env)
  {
    var attempt := 0;
    var authRetryUsed := false;
    count, waited, authAt := 0, 0.0, 0;
    while true
      invariant authRetryUsed <==> authAt != 0
      invariant Loop(p, authRetry, env, attempt, attempt, waited, authAt) == RunWithRetries(p, authRetry, env)
      decreases !authRetryUsed, if attempt < p.maxAttempts then p.maxAttempts - attempt else 0
    {
      var run := env(attempt);
      attempt := attempt + 1;
      count := attempt - 1;
      match run.outcome {
        case Returned(output) => return Value(output), count, waited, authAt;
        case NeedsApproval => return Paused, count, waited, authAt;
        case TaskCancelled => return Cancelled, count, waited, authAt;
        case AuthFails =>
          if authRetry && !authRetryUsed && run.refresh.Evicted? {
            authRetryUsed := true;
            authAt := attempt;
          } else if authRetry && !authRetryUsed && run.refresh.RefreshRaises? {
            return Escaped, count, waited, authAt;
          } else if authRetry && !authRetryUsed && run.refresh.RefreshCancelled? {
            return Cancelled, count, waited, authAt;
          } else {
            return Error(AUTH_ERROR), count, waited, authAt;
          }
        case Fails(error) =>
          if error !in p.retryable || attempt >= p.maxAttempts {
            return Error(error), count, waited, authAt;
          }
          waited := waited + DelayFor(p, attempt);
          if run.pause.PauseCancelled? {
            return Cancelled, count, waited, authAt;
          }
          if run.pause.RunCancelledMeanwhile? {
            return Error(RUN_CANCELLED), count, waited, authAt;
          }
      }
    }
  }

  // --- what a run of the loop amounts to ---

  // Run k is followed by another one: a retryable failure with attempts left, slept off, or the
  // one auth failure that evicted something.
  predicate GoesOn(p: Policy, authRetry: bool, env: nat -> Attempt, k: nat, authAt: nat)
    requires k >= 1
  {
    var a := env(k - 1);
    if authAt == k then authRetry && a.outcome.AuthFails? && a.refresh.Evicted?
    else a.outcome.Fails? && a.outcome.error in p.retryable && k < p.maxAttempts && a.pause.Slept?
  }

  // How the last run, run k, ends the loop.
  predicate EndsWith(p: Policy, authRetry: bool, a: Attempt, k: nat, authAt: nat, f: Final) {
    match a.outcome
    case Returned(output) => f == Value(output)
    case NeedsApproval => f == Paused
    case TaskCancelled => f == Cancelled
    case AuthFails =>
      if authRetry && authAt == 0 then
        !a.refresh.Evicted? && f == (match a.refresh
                                     case RefreshRaises => Escaped
                                     case RefreshCancelled => Cancelled
                                     case _ => Error(AUTH_ERROR))
      else f == Error(AUTH_ERROR)
    case Fails(error) =>
      if error !in p.retryable || k >= p.maxAttempts then f == Error(error)
      else !a.pause.Slept? && f == if a.pause.RunCancelledMeanwhile? then Error(RUN_CANCELLED) else Cancelled
  }

  // The loop described by its runs, not by its steps.
  ghost predicate History(p: Policy, authRetry: bool, env: nat -> Attempt, e: Ended, from: nat, waited: real,
                          authAt: nat)
  {
    && e.runs > from && e.count == e.runs - 1
    && (authAt != 0 ==> e.authAt == authAt) && (authAt == 0 ==> e.authAt == 0 || from < e.authAt < e.runs)
    && (forall k :: from < k < e.runs ==> GoesOn(p, authRetry, env, k, e.authAt))
    && EndsWith(p, authRetry, env(e.runs - 1), e.runs, e.authAt, e.final)
  }

  lemma {:induction false} LoopHistory(p: Policy, authRetry: bool, env: nat -> Attempt, from: nat, waited: real,
                                       authAt: nat)
    requires authAt <= from
    ensures History(p, authRetry, env, Loop(p, authRetry, env, from, from, waited, authAt), from, waited, authAt)
    decreases if authAt == 0 then 1 else 0, if from < p.maxAttempts then p.maxAttempts - from else 0
  {
    var run := env(from);
    if run.outcome.AuthFails? && authRetry && authAt == 0 && run.refresh.Evicted? {
      LoopHistory(p, authRetry, env, from + 1, waited, from + 1);
    } else if run.outcome.Fails? && run.outcome.error in p.retryable && from + 1 < p.maxAttempts && run.pause.Slept? {
      LoopHistory(p, authRetry, env, from + 1, waited + DelayFor(p, from + 1), authAt);
    }
  }

  // The handler runs at most max_attempts times, and once more exactly when the auth retry is
  // made after the last of them; the tracker holds the runs but one; every run but the last
  // was one that is tried again, and the last run decides the result.
  lemma RunsAreBounded(p: Policy, authRetry: bool, env: nat -> Attempt)
    requires ValidPolicy(p)
    ensures var e := RunWithRetries(p, authRetry, env);
            && 1 <= e.runs <= p.maxAttempts + 1 && e.count == e.runs - 1
            && (e.runs == p.maxAttempts + 1 <==> e.authAt == p.maxAttempts)
            && (forall k :: 1 <= k < e.runs ==> GoesOn(p, authRetry, env, k, e.authAt))
            && EndsWith(p, authRetry, env(e.runs - 1), e.runs, e.authAt, e.final)
  {
    LoopHistory(p, authRetry, env, 0, 0.0, 0);
    var e := RunWithRetries(p, authRetry, env);
    var max := p.maxAttempts;
    assert e.runs > max ==> GoesOn(p, authRetry, env, max, e.authAt);
    assert e.runs > max + 1 ==> GoesOn(p, authRetry, env, max + 1, e.authAt);
  }

  // --- the result, told from the environment ---

  // Run k takes place, the runs before it having gone on, with the auth retry made after run at.
  ghost predicate Reached(p: Policy, authRetry: bool, env: nat -> Attempt, k: nat, at: nat) {
    k >= 1 && (at == 0 || 1 <= at < k) && forall j :: 1 <= j < k ==> GoesOn(p, authRetry, env, j, at)
  }

  ghost predicate EndsAt(p: Policy, authRetry: bool, env: nat -> Attempt, k: nat, at: nat, f: Final) {
    Reached(p, authRetry, env, k, at) && EndsWith(p, authRetry, env(k - 1), k, at, f)
  }

  lemma {:induction false} ReachedByLoop(p: Policy, authRetry: bool, env: nat -> Attempt, from: nat, waited: real,
                                         k: nat, at: nat, f: Final)
    requires EndsAt(p, authRetry, env, k, at, f) && from < k
    ensures var l := Loop(p, authRetry, env, from, from, waited, if at <= from then at else 0);
            l.final == f && l.runs == k && l.authAt == at
    decreases k - from
  {
    if from + 1 < k {
      assert GoesOn(p, authRetry, env, from + 1, at);
      var delay := if at == from + 1 then 0.0 else DelayFor(p, from + 1);
      ReachedByLoop(p, authRetry, env, from + 1, waited + delay, k, at, f);
    }
  }

  // The result is the one that a run which takes place ends with; there is only one such run.
  lemma LastRunDecides(p: Policy, authRetry: bool, env: nat -> Attempt, f: Final)
    ensures RunWithRetries(p, authRetry, env).final == f
            <==> exists k: nat, at: nat :: EndsAt(p, authRetry, env, k, at, f)
    ensures forall k: nat, at: nat :: EndsAt(p, authRetry, env, k, at, f) ==>
            RunWithRetries(p, authRetry, env).runs == k
  {
    LoopHistory(p, authRetry, env, 0, 0.0, 0);
    var e := RunWithRetries(p, authRetry, env);
    assert EndsAt(p, authRetry, env, e.runs, e.authAt, e.final);
    forall k: nat, at: nat | EndsAt(p, authRetry, env, k, at, f) ensures e.final == f && e.runs == k {
      ReachedByLoop(p, authRetry, env, 0, 0.0, k, at, f);
    }
  }

  // The first auth failure, after nothing but failures that were tried again, finds its refresh
  // raising.
  ghost predicate RefreshRaisesFirst(p: Policy, env: nat -> Attempt, k: nat) {
    && k >= 1 && env(k - 1).outcome.AuthFails? && env(k - 1).refresh.RefreshRaises?
    && forall j :: 1 <= j < k ==> Retried(p, env, j)
  }

  // Run j is a failure that is tried again.
  predicate Retried(p: Policy, env: nat -> Attempt, j: nat)
    requires j >= 1
  {
    var a := env(j - 1);
    a.outcome.Fails? && a.outcome.error in p.retryable && j < p.maxAttempts && a.pause.Slept?
  }

  // What is no FoundryError gets out exactly when the tool asks for auth retries and that
  // happens; without auth retries nothing does.
  lemma EscapesExactly(p: Policy, authRetry: bool, env: nat -> Attempt)
    ensures RunWithRetries(p, authRetry, env).final.Escaped?
            <==> authRetry && exists k: nat :: RefreshRaisesFirst(p, env, k)
  {
    LastRunDecides(p, authRetry, env, Escaped);
    if authRetry {
      forall k: nat | RefreshRaisesFirst(p, env, k) ensures EndsAt(p, authRetry, env, k, 0, Escaped) {
        assert forall j :: 1 <= j < k ==> (Retried(p, env, j) <==> GoesOn(p, authRetry, env, j, 0));
      }
    }
    forall k: nat, at: nat | EndsAt(p, authRetry, env, k, at, Escaped)
      ensures authRetry && RefreshRaisesFirst(p, env, k)
    {
      assert forall j :: 1 <= j < k ==> (Retried(p, env, j) <==> GoesOn(p, authRetry, env, j, at));
    }
  }

  // The run asks for approval, or the task is cancelled in it, in its backoff or in the refresh,
  // or the refresh raises.
  predicate Interrupts(p: Policy, authRetry: bool, a: Attempt, k: nat, at: nat) {
    match a.outcome
    case NeedsApproval => true
    case TaskCancelled => true
    case AuthFails => authRetry && at == 0 && (a.refresh.RefreshRaises? || a.refresh.RefreshCancelled?)
    case Fails(error) => error in p.retryable && k < p.maxAttempts && a.pause.PauseCancelled?
    case Returned(_) => false
  }

  ghost predicate Interrupted(p: Policy, authRetry: bool, env: nat -> Attempt) {
    exists k: nat, at: nat :: Reached(p, authRetry, env, k, at) && Interrupts(p, authRetry, env(k - 1), k, at)
  }

  // The loop comes to neither a value nor an error exactly when a run that takes place is
  // interrupted.
  lemma InterruptedExactly(p: Policy, authRetry: bool, env: nat -> Attempt)
    ensures var f := RunWithRetries(p, authRetry, env).final;
            !f.Value? && !f.Error? <==> Interrupted(p, authRetry, env)
  {
    var f := RunWithRetries(p, authRetry, env).final;
    LastRunDecides(p, authRetry, env, f);
    var k: nat, at: nat :| EndsAt(p, authRetry, env, k, at, f);
    assert Interrupts(p, authRetry, env(k - 1), k, at) <==> !f.Value? && !f.Error?;
    forall l: nat, at': nat | Reached(p, authRetry, env, l, at') && Interrupts(p, authRetry, env(l - 1), l, at')
      ensures !f.Value? && !f.Error?
    {
      InterruptEnds(p, authRetry, env, l, at');
    }
  }

  lemma InterruptEnds(p: Policy, authRetry: bool, env: nat -> Attempt, k: nat, at: nat)
    requires Reached(p, authRetry, env, k, at) && Interrupts(p, authRetry, env(k - 1), k, at)
    ensures var f := RunWithRetries(p, authRetry, env).final; !f.Value? && !f.Error?
  {
    var a := env(k - 1);
    var f := if a.outcome.NeedsApproval? then Paused
             else if a.outcome.AuthFails? && a.refresh.RefreshRaises? then Escaped
             else Cancelled;
    assert EndsAt(p, authRetry, env, k, at, f);
    LastRunDecides(p, authRetry, env, f);
  }

  // The delays after runs 1 to k, but for the one retried at once.
  function DelaysAfter(p: Policy, k: nat, at: nat): real {
    if k == 0 then 0.0 else DelaysAfter(p, k - 1, at) + if k == at then 0.0 else DelayFor(p, k)
  }

  // The delay asked for after the last run, if it was to be followed by another.
  function LastDelay(p: Policy, a: Attempt, k: nat): real
    requires k >= 1
  {
    if a.outcome.Fails? && a.outcome.error in p.retryable && k < p.maxAttempts then DelayFor(p, k) else 0.0
  }

  lemma {:induction false} NoRetryYet(p: Policy, k: nat, at: nat)
    requires at > k
    ensures DelaysAfter(p, k, at) == DelaysAfter(p, k, 0)
  {
    if k > 0 {
      NoRetryYet(p, k - 1, at);
    }
  }

  lemma {:induction false} WaitedIs(p: Policy, authRetry: bool, env: nat -> Attempt, from: nat, waited: real,
                                    authAt: nat)
    requires authAt <= from && waited == DelaysAfter(p, from, authAt)
    ensures var e := Loop(p, authRetry, env, from, from, waited, authAt);
            e.runs > 0 && e.waited == DelaysAfter(p, e.runs - 1, e.authAt) + LastDelay(p, env(e.runs - 1), e.runs)
    decreases if authAt == 0 then 1 else 0, if from < p.maxAttempts then p.maxAttempts - from else 0
  {
    var run := env(from);
    if run.outcome.AuthFails? && authRetry && authAt == 0 && run.refresh.Evicted? {
      NoRetryYet(p, from, from + 1);
      WaitedIs(p, authRetry, env, from + 1, waited, from + 1);
    } else if run.outcome.Fails? && run.outcome.error in p.retryable && from + 1 < p.maxAttempts && run.pause.Slept? {
      WaitedIs(p, authRetry, env, from + 1, waited + DelayFor(p, from + 1), authAt);
    }
  }

  // The backoff asked for is the sum of the delays after the runs that were tried again, the auth
  // retry excepted, and of the one after the last run if the pause was cut short there.
  lemma BackoffIsTheDelays(p: Policy, authRetry: bool, env: nat -> Attempt)
    ensures var e := RunWithRetries(p, authRetry, env);
            e.runs > 0 && e.waited == DelaysAfter(p, e.runs - 1, e.authAt) + LastDelay(p, env(e.runs - 1), e.runs)
  {
    WaitedIs(p, authRetry, env, 0, 0.0, 0);
  }

  // Attempts that may still be followed by a backoff.
  function Left(p: Policy, attempt: nat): nat {
    if attempt + 1 < p.maxAttempts then p.maxAttempts - 1 - attempt else 0
  }

  lemma {:induction false} WaitedSoFar(p: Policy, authRetry: bool, env: nat -> Attempt, from: nat, waited: real,
                                       authAt: nat)
    requires ValidPolicy(p)
    ensures waited <= Loop(p, authRetry, env, from, from, waited, authAt).waited
            <= waited + Times(Left(p, from), p.maxDelay)
    decreases if authAt == 0 then 1 else 0, if from < p.maxAttempts then p.maxAttempts - from else 0
  {
    var run := env(from);
    TimesGrows(0, Left(p, from), p.maxDelay);
    if run.outcome.AuthFails? && authRetry && authAt == 0 && run.refresh.Evicted? {
      WaitedSoFar(p, authRetry, env, from + 1, waited, from + 1);
    } else if run.outcome.Fails? && run.outcome.error in p.retryable && from + 1 < p.maxAttempts {
      DelaysGrowToTheLimit(p, from + 1);
      if run.pause.Slept? {
        WaitedSoFar(p, authRetry, env, from + 1, waited + DelayFor(p, from + 1), authAt);
      } else {
        TimesGrows(0, Left(p, from) - 1, p.maxDelay);
      }
    }
  }

  // The backoff asked for is at most (max_attempts - 1) times the longest delay.
  lemma BackoffIsBounded(p: Policy, authRetry: bool, env: nat -> Attempt)
    requires ValidPolicy(p)
    ensures 0.0 <= RunWithRetries(p, authRetry, env).waited <= Times(p.maxAttempts - 1, p.maxDelay)
  {
    WaitedSoFar(p, authRetry, env, 0, 0.0, 0);
  }
}
