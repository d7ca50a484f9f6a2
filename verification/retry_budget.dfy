/** The retry budget, and one call through the retrying interceptor. */
module RetryBudget {
  import opened Prelude

  datatype Limits = Limits(maxConcurrent: int, maxRatio: real)

  /** Retries in flight, requests and retries so far. */
  datatype Counters = Counters(current: int, total: nat, retried: nat)

  predicate Roomy(l: Limits, current: int) {
    current < l.maxConcurrent
  }

  predicate WithinRatio(l: Limits, total: nat, retried: nat) {
    total > 0 ==> retried as real / total as real < l.maxRatio
  }

  predicate MayRetry(l: Limits, c: Counters) {
    Roomy(l, c.current) && WithinRatio(l, c.total, c.retried)
  }

  class Budget {
    const limits: Limits
    var currentRetries: int
    var totalRequests: nat
    var retriedRequests: nat

    ghost function View(): Counters
      reads this
    {
      Counters(currentRetries, totalRequests, retriedRequests)
    }

    constructor (limits: Limits)
      ensures this.limits == limits && View() == Counters(0, 0, 0)
    {
      this.limits, currentRetries, totalRequests, retriedRequests := limits, 0, 0, 0;
    }

    method CanRetry() returns (ok: bool)
      ensures ok <==> MayRetry(limits, View())
    {
      if currentRetries >= limits.maxConcurrent {
        return false;
      }
      if totalRequests > 0 && retriedRequests as real / totalRequests as real >= limits.maxRatio {
        return false;
      }
      return true;
    }

    method RegisterRequest()
      modifies this
      ensures View() == old(View()).(total := old(View()).total + 1)
    {
      totalRequests := totalRequests + 1;
    }

    method RegisterRetry()
      modifies this
      ensures View() == old(View()).(current := old(View()).current + 1, retried := old(View()).retried + 1)
    {
      currentRetries := currentRetries + 1;
      retriedRequests := retriedRequests + 1;
    }

    method ReleaseRetry()
      modifies this
      ensures View() == old(View()).(current := old(View()).current - 1)
    {
      currentRetries := currentRetries - 1;
    }
  }

  datatype Outcome = Success | Failure(code: nat)

  datatype Policy = Policy(enabled: bool, maxAttempts: nat, retryable: set<nat>)

  datatype Reply = Done | Failed(code: nat) | Cancelled

  predicate Retryable(p: Policy, o: Outcome) {
    o.Failure? && o.code in p.retryable
  }

  function Returned(o: Outcome): Reply {
    match o
    case Success => Done
    case Failure(code) => Failed(code)
  }

  /** The counters when a lone caller asks for its retry number `attempt`. */
  function Asked(c: Counters, attempt: nat): Counters
    requires attempt > 0
  {
    Counters(c.current + attempt - 1, c.total + 1, c.retried + attempt - 1)
  }

  /** Whether retry number `attempt` is made, all earlier ones having been made. */
  predicate Goes(p: Policy, l: Limits, c: Counters, invoke: nat -> Outcome, cancelled: nat -> bool, attempt: nat)
    requires attempt > 0
  {
    && attempt <= p.maxAttempts
    && Retryable(p, invoke(attempt - 1))
    && MayRetry(l, Asked(c, attempt))
    && !cancelled(attempt)
  }

  /** What a retry takes, spelled out: attempts left, a retryable failure, room in both budgets, no cancellation. */
  lemma {:induction false} GoesIff(
      p: Policy, l: Limits, c: Counters, invoke: nat -> Outcome, cancelled: nat -> bool, attempt: nat)
    requires attempt > 0
    ensures Goes(p, l, c, invoke, cancelled, attempt) <==>
      && attempt <= p.maxAttempts
      && invoke(attempt - 1) != Success && invoke(attempt - 1).code in p.retryable
      && c.current + (attempt - 1) < l.maxConcurrent
      && (c.retried + (attempt - 1)) as real < l.maxRatio * (c.total + 1) as real
      && !cancelled(attempt)
  {
    var asked := Asked(c, attempt);
    RatioInProducts(asked.retried as real, asked.total as real, l.maxRatio);
  }

  lemma {:induction false} RatioInProducts(r: real, t: real, m: real)
    requires t > 0.0
    ensures r / t < m <==> r < m * t
  {
    assert r / t * t == r;
    if r / t < m {
      assert (m - r / t) * t > 0.0;
    } else {
      assert (r / t - m) * t >= 0.0;
    }
  }

  /**
   * A call whose first `k` attempts fail retryably and whose next one succeeds, within attempts and budget and never
   * cancelled, makes exactly these retries and ends well.
   */
  lemma {:induction false} SuccessInTheEnd(
      p: Policy, l: Limits, c: Counters, invoke: nat -> Outcome, cancelled: nat -> bool, k: nat)
    requires k <= p.maxAttempts && invoke(k) == Success
    requires forall j: nat | j < k :: invoke(j) != Success && invoke(j).code in p.retryable
    requires forall j: nat | 1 <= j <= k :: !cancelled(j)
    requires c.current + k <= l.maxConcurrent && (c.retried + k) as real <= l.maxRatio * (c.total + 1) as real
    ensures forall j: nat | 1 <= j <= k :: Goes(p, l, c, invoke, cancelled, j)
    ensures !Goes(p, l, c, invoke, cancelled, k + 1) && Returned(invoke(k)) == Done
  {
    forall j: nat | 1 <= j <= k ensures Goes(p, l, c, invoke, cancelled, j) {
      GoesIff(p, l, c, invoke, cancelled, j);
    }
    GoesIff(p, l, c, invoke, cancelled, k + 1);
  }

  /** A failure is passed on with its code. */
  lemma {:induction false} ReturnedTellsAll(o: Outcome)
    ensures Returned(o) == Done <==> o.Success?
    ensures o.Failure? ==> Returned(o) == Failed(o.code)
  {}

  class RetryInterceptor {
    const policy: Policy
    const budget: Budget

    constructor (policy: Policy, budget: Budget)
      ensures this.policy == policy && this.budget == budget
    {
      this.policy, this.budget := policy, budget;
    }

    /**
     * One call, nobody else using the budget. `invoke(k)` is what attempt k meets and `cancelled(k)` whether
     * the context ends during the delay before it. Retries are made up to the first one that does not go, and
     * every permit is given back.
     */
    method Call(invoke: nat -> Outcome, cancelled: nat -> bool) returns (reply: Reply, ghost retries: nat)
      modifies budget
      ensures !policy.enabled ==> retries == 0 && reply == Returned(invoke(0)) && budget.View() == old(budget.View())
      ensures policy.enabled ==>
        && budget.View() ==
          Counters(old(budget.View()).current, old(budget.View()).total + 1, old(budget.View()).retried + retries)
        && (forall k | 1 <= k <= retries :: Goes(policy, budget.limits, old(budget.View()), invoke, cancelled, k))
        && !Goes(policy, budget.limits, old(budget.View()), invoke, cancelled, retries + 1)
        && (reply == Cancelled <==>
              && retries < policy.maxAttempts && Retryable(policy, invoke(retries))
              && MayRetry(budget.limits, Asked(old(budget.View()), retries + 1)) && cancelled(retries + 1))
        && (reply != Cancelled ==> reply == Returned(invoke(retries)))
    {
      retries := 0;
      if !policy.enabled {
        var o := invoke(0);
        return Returned(o), 0;
      }
      ghost var was := budget.View();
      budget.RegisterRequest();
      var held := 0;
      var lastErr := Done;
      var attempt := 0;
      while attempt <= policy.maxAttempts
        invariant attempt <= policy.maxAttempts
        invariant held == retries == if attempt == 0 then 0 else attempt - 1
        invariant budget.View() == Counters(was.current + held, was.total + 1, was.retried + held)
        invariant forall k | 1 <= k <= retries :: Goes(policy, budget.limits, was, invoke, cancelled, k)
        invariant attempt > 0 ==> Retryable(policy, invoke(attempt - 1)) && lastErr == Returned(invoke(attempt - 1))
        decreases policy.maxAttempts - attempt
      {
        if attempt > 0 {
          var can := budget.CanRetry();
          if !can {
            reply := lastErr;
            break;
          }
          if cancelled(attempt) {
            reply := Cancelled;
            break;
          }
          budget.RegisterRetry();
          held := held + 1;
          retries := retries + 1;
        }
        var result := invoke(attempt);
        if result.Success? {
          reply := Done;
          break;
        }
        lastErr := Returned(result);
        if result.code !in policy.retryable || attempt == policy.maxAttempts {
          reply := lastErr;
          break;
        }
        attempt := attempt + 1;
      }
      while held > 0
        invariant budget.View() == Counters(was.current + held, was.total + 1, was.retried + retries)
      {
        budget.ReleaseRetry();
        held := held - 1;
      }
    }
  }
}
