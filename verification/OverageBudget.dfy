/** Eval-run admission of engramia/billing/enforcement.py: plan quota, overage
    opt-in and budget cap. */
module OverageBudget {
  import opened Options

  type Time = int   // microseconds

  const DAY: int := 24 * 3600 * 1_000_000
  const GRACE_PERIOD_DAYS: int := 7

  /** When a past-due subscription fell behind, as stored. */
  datatype Since = NotRecorded | Unparseable | At(t: Time)

  datatype Subscription = Subscription(status: string, pastDueSince: Since, evalRunsLimit: Option<nat>)

  datatype Overage = Overage(enabled: bool, pricePerUnit: nat, unitSize: nat, budgetCap: Option<nat>)

  datatype Verdict =
    | Allowed | PaymentRequired | SubscriptionCanceled | QuotaExceeded | BudgetCapReached | DivisionByZero

  /** None when the subscription is usable. */
  function SubscriptionProblem(s: Subscription, now: Time): Option<Verdict> {
    if s.status == "past_due" then
      if s.pastDueSince.At? && (now - s.pastDueSince.t) / DAY < GRACE_PERIOD_DAYS then None
      else Some(PaymentRequired)
    else if s.status == "canceled" then Some(SubscriptionCanceled)
    else None
  }

  function Spend(o: Overage, limit: nat, count: nat): nat
    requires o.unitSize > 0
  {
    (if count > limit then count - limit else 0) / o.unitSize * o.pricePerUnit
  }

  function CheckEvalRuns(s: Subscription, overage: Option<Overage>, count: nat, now: Time): Verdict {
    var problem := SubscriptionProblem(s, now);
    if problem.Some? then problem.value
    else if s.evalRunsLimit.None? then Allowed
    else if count < s.evalRunsLimit.value then Allowed
    else if overage.Some? && overage.value.enabled then
      if overage.value.budgetCap.Some? then
        if overage.value.unitSize == 0 then DivisionByZero
        else if Spend(overage.value, s.evalRunsLimit.value, count) < overage.value.budgetCap.value then Allowed
        else BudgetCapReached
      else Allowed
    else QuotaExceeded
  }

  // ----- who may use the service at all ---------------------------------------------

  /** A past-due subscription is usable for exactly the first seven days after a
      readable due date, and unusable without one. */
  lemma GracePeriod(s: Subscription, now: Time)
    ensures SubscriptionProblem(s, now) == Some(PaymentRequired) <==>
            s.status == "past_due" && !(s.pastDueSince.At? && now < s.pastDueSince.t + GRACE_PERIOD_DAYS * DAY)
    ensures SubscriptionProblem(s, now) == Some(SubscriptionCanceled) <==> s.status == "canceled"
  {
    if s.pastDueSince.At? {
      QuotientBelow(now - s.pastDueSince.t, DAY, GRACE_PERIOD_DAYS);
    }
  }

  /** Past due, and not within seven days of a readable due date. */
  predicate Lapsed(s: Subscription, now: Time) {
    s.status == "past_due" && !(s.pastDueSince.At? && now < s.pastDueSince.t + 7 * 24 * 60 * 60 * 1_000_000)
  }

  /** What decides each verdict, from the stored fields alone. */
  lemma VerdictsMean(s: Subscription, overage: Option<Overage>, count: nat, now: Time)
    ensures var v := CheckEvalRuns(s, overage, count, now);
            var usable := !Lapsed(s, now) && s.status != "canceled";
            var exhausted := usable && s.evalRunsLimit.Some? && count >= s.evalRunsLimit.value;
            var paid := overage.Some? && overage.value.enabled;
            && (v == PaymentRequired <==> Lapsed(s, now))
            && (v == SubscriptionCanceled <==> s.status == "canceled")
            && (v == QuotaExceeded <==> exhausted && !paid)
            && (v == DivisionByZero <==>
                exhausted && paid && overage.value.budgetCap.Some? && overage.value.unitSize == 0)
            && (v == BudgetCapReached <==>
                exhausted && paid && overage.value.budgetCap.Some? && overage.value.unitSize > 0
                && overage.value.budgetCap.value
                   <= (count - s.evalRunsLimit.value) / overage.value.unitSize * overage.value.pricePerUnit)
  {
    GracePeriod(s, now);
    if s.status == "past_due" && SubscriptionProblem(s, now).None? {
      assert SubscriptionProblem(s, now) != Some(PaymentRequired);
    }
  }

  /** A usable subscription without a limit, or with an enabled overage without a
      cap, is always served. */
  lemma UncappedIsServed(s: Subscription, overage: Option<Overage>, count: nat, now: Time)
    requires !Lapsed(s, now) && s.status != "canceled"
    requires s.evalRunsLimit.None? || (overage.Some? && overage.value.enabled && overage.value.budgetCap.None?)
    ensures CheckEvalRuns(s, overage, count, now) == Allowed
  {
    VerdictsMean(s, overage, count, now);
  }

  /** A lapsed or canceled subscription is served in no run. */
  lemma {:induction false} UnusableAdmitsNothing(s: Subscription, overage: Option<Overage>, now: Time, n: nat)
    requires Lapsed(s, now) || s.status == "canceled"
    ensures CountAfter(s, overage, now, n) == 0
  {
    if n == 0 {
    } else {
      UnusableAdmitsNothing(s, overage, now, n - 1);
      VerdictsMean(s, overage, 0, now);
    }
  }

  lemma QuotientBelow(x: int, d: int, q: int)
    requires d > 0
    ensures x / d < q <==> x < q * d
  {
    var k := x / d;
    assert k * d <= x < k * d + d;
    if k < q {
      TimesAtLeast(k + 1, q, d);
    } else {
      TimesAtLeast(q, k, d);
    }
  }

  lemma TimesAtLeast(a: int, b: int, d: int)
    requires a <= b && d > 0
    ensures a * d <= b * d
  {}

  // ----- closed form of the budget ----------------------------------------------------

  function CeilDiv(c: nat, p: nat): nat
    requires p > 0
  {
    (c + p - 1) / p
  }

  lemma CeilBounds(c: nat, p: nat, n: nat)
    requires p > 0
    ensures n * p < c <==> n < CeilDiv(c, p)
    ensures c <= CeilDiv(c, p) * p < c + p
  {
    var q := CeilDiv(c, p);
    assert q * p <= c + p - 1 < q * p + p;
    if n < q {
      TimesAtLeast(n + 1, q, p);
    } else {
      TimesAtLeast(q, n, p);
    }
  }

  /** How many requests the plan and a capped overage admit in a period. */
  function Admission(limit: nat, o: Overage): nat
    requires o.pricePerUnit > 0 && o.unitSize > 0 && o.budgetCap.Some?
  {
    limit + CeilDiv(o.budgetCap.value, o.pricePerUnit) * o.unitSize
  }

  predicate Capped(s: Subscription, o: Overage, now: Time) {
    && SubscriptionProblem(s, now).None? && s.evalRunsLimit.Some?
    && o.enabled && o.pricePerUnit > 0 && o.unitSize > 0 && o.budgetCap.Some?
  }

  /** A request is admitted exactly while the count is below limit plus
      unit * ceil(cap / price); hence a refusal is permanent as the count grows. */
  lemma AdmittedIff(s: Subscription, o: Overage, count: nat, now: Time)
    requires Capped(s, o, now)
    ensures CheckEvalRuns(s, Some(o), count, now) == Allowed <==> count < Admission(s.evalRunsLimit.value, o)
  {
    var limit := s.evalRunsLimit.value;
    var q := CeilDiv(o.budgetCap.value, o.pricePerUnit);
    TimesAtLeast(0, q, o.unitSize);
    if count >= limit {
      var units := (count - limit) / o.unitSize;
      assert (if count > limit then count - limit else 0) == count - limit;
      CeilBounds(o.budgetCap.value, o.pricePerUnit, units);
      QuotientBelow(count - limit, o.unitSize, q);
    }
  }

  /** What is spent when admission ends: at least the cap, by less than the price
      of one unit. */
  lemma FinalSpend(limit: nat, o: Overage)
    requires o.pricePerUnit > 0 && o.unitSize > 0 && o.budgetCap.Some?
    ensures o.budgetCap.value <= Spend(o, limit, Admission(limit, o)) < o.budgetCap.value + o.pricePerUnit
  {
    var q := CeilDiv(o.budgetCap.value, o.pricePerUnit);
    TimesAtLeast(0, q, o.unitSize);
    CeilBounds(o.budgetCap.value, o.pricePerUnit, 0);
    ExactQuotient(q, o.unitSize);
  }

  lemma ExactQuotient(q: nat, u: nat)
    requires u > 0
    ensures q * u / u == q
  {
    QuotientBelow(q * u, u, q);
    QuotientBelow(q * u, u, q + 1);
  }

  /** The count after n requests, one at a time, each admitted one counted once. */
  function CountAfter(s: Subscription, overage: Option<Overage>, now: Time, n: nat): nat {
    if n == 0 then 0 else
      var c := CountAfter(s, overage, now, n - 1);
      if CheckEvalRuns(s, overage, c, now) == Allowed then c + 1 else c
  }

  /** From zero usage exactly the closed-form number of requests is admitted. */
  lemma {:induction false} AdmitsExactly(s: Subscription, o: Overage, now: Time, n: nat)
    requires Capped(s, o, now)
    ensures CountAfter(s, Some(o), now, n) ==
            if n < Admission(s.evalRunsLimit.value, o) then n else Admission(s.evalRunsLimit.value, o)
  {
    var q := CeilDiv(o.budgetCap.value, o.pricePerUnit);
    TimesAtLeast(0, q, o.unitSize);
    if n == 0 {
    } else {
      AdmitsExactly(s, o, now, n - 1);
      AdmittedIff(s, o, CountAfter(s, Some(o), now, n - 1), now);
    }
  }

  /** Without overage exactly the plan's limit is admitted. */
  lemma {:induction false} QuotaAdmitsExactly(s: Subscription, overage: Option<Overage>, now: Time, n: nat)
    requires SubscriptionProblem(s, now).None? && s.evalRunsLimit.Some?
    requires overage.None? || !overage.value.enabled
    ensures CountAfter(s, overage, now, n) == if n < s.evalRunsLimit.value then n else s.evalRunsLimit.value
  {
    if n == 0 {
    } else {
      QuotaAdmitsExactly(s, overage, now, n - 1);
    }
  }
}
