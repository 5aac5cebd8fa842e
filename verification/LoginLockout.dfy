/** The sliding-window lockout over `admin_login_attempts`
    (engramia/admin_auth/service.py). The gate reads the table in one
    transaction and the attempt is logged in a later one, so attempts for the
    same email can overlap between the two. */
module LoginLockout {

  type Time = int   // microseconds

  const LOCKOUT_THRESHOLD: nat := 5
  const LOCKOUT_WINDOW: int := 15 * 60 * 1_000_000

  /** A logged attempt; `locked` marks one that the gate turned away. */
  datatype Attempt = Attempt(email: string, at: Time, success: bool, locked: bool)

  function RecentFailures(log: seq<Attempt>, email: string, cutoff: Time): nat {
    if log == [] then 0 else
      var a := log[|log| - 1];
      RecentFailures(log[..|log| - 1], email, cutoff)
      + (if a.email == email && !a.success && a.at >= cutoff then 1 else 0)
  }

  predicate LockedOut(log: seq<Attempt>, email: string, now: Time) {
    RecentFailures(log, email, now - LOCKOUT_WINDOW) >= LOCKOUT_THRESHOLD
  }

  /** Attempts that passed the gate, failed, and were logged in [from, to]. */
  function GatedFailures(log: seq<Attempt>, email: string, from: Time, to: Time): nat {
    if log == [] then 0 else
      var a := log[|log| - 1];
      GatedFailures(log[..|log| - 1], email, from, to)
      + (if a.email == email && !a.success && !a.locked && from <= a.at <= to then 1 else 0)
  }

  /** The positions of the log that hold a failure of this email since a time. */
  function FailuresSince(log: seq<Attempt>, email: string, cutoff: Time): set<nat> {
    set i: nat | i < |log| && log[i].email == email && !log[i].success && cutoff <= log[i].at
  }

  lemma {:induction false} FailuresAreCounted(log: seq<Attempt>, email: string, cutoff: Time)
    ensures RecentFailures(log, email, cutoff) == |FailuresSince(log, email, cutoff)|
  {
    if log == [] {
      assert FailuresSince(log, email, cutoff) == {};
    } else {
      var n := |log| - 1;
      FailuresAreCounted(log[..n], email, cutoff);
      var front := FailuresSince(log[..n], email, cutoff);
      if log[n].email == email && !log[n].success && cutoff <= log[n].at {
        assert FailuresSince(log, email, cutoff) == front + {n};
      } else {
        assert FailuresSince(log, email, cutoff) == front;
      }
    }
  }

  /** Locked means at least five logged failures of this email in the last fifteen
      minutes, whichever stage they come from. */
  lemma LockedIff(log: seq<Attempt>, email: string, now: Time)
    ensures LockedOut(log, email, now) <==>
              |set i: nat | i < |log| && log[i].email == email && !log[i].success
                            && log[i].at >= now - 15 * 60 * 1_000_000| >= 5
  {
    FailuresAreCounted(log, email, now - LOCKOUT_WINDOW);
    assert FailuresSince(log, email, now - LOCKOUT_WINDOW) ==
           set i: nat | i < |log| && log[i].email == email && !log[i].success && log[i].at >= now - 15 * 60 * 1_000_000;
  }

  /** An email whose failures are all older than fifteen minutes is let through. */
  lemma GateReopens(log: seq<Attempt>, email: string, now: Time)
    requires forall i :: 0 <= i < |log| && log[i].email == email && !log[i].success ==>
               log[i].at < now - 15 * 60 * 1_000_000
    ensures !LockedOut(log, email, now)
  {
    LockedIff(log, email, now);
    assert (set i: nat | i < |log| && log[i].email == email && !log[i].success
                         && log[i].at >= now - 15 * 60 * 1_000_000) == {};
  }

  /** Attempts for other emails, and successes, never lock an email. */
  lemma {:induction false} OthersNeverLock(log: seq<Attempt>, more: seq<Attempt>, email: string, now: Time)
    requires forall i :: 0 <= i < |more| ==> more[i].email != email || more[i].success
    ensures LockedOut(log + more, email, now) <==> LockedOut(log, email, now)
  {
    if more == [] {
      assert log + more == log;
    } else {
      var n := |more| - 1;
      assert (log + more)[..|log| + n] == log + more[..n];
      OthersNeverLock(log, more[..n], email, now);
    }
  }

  // ----- runs -------------------------------------------------------------------

  datatype Open = Open(email: string, passed: bool)

  datatype State = State(log: seq<Attempt>, clock: Time, open: map<nat, Open>)

  /** An attempt reads the clock and the table (Gate), then logs its result
      (Finish) or dies before it can (Abandon). */
  datatype Event =
    | Gate(op: nat, email: string, sampled: Time, at: Time)
    | Finish(op: nat, success: bool, at: Time)
    | Abandon(op: nat, at: Time)

  predicate Legal(s: State, e: Event) {
    && s.clock <= e.at
    && match e
       case Gate(op, _, sampled, at) => op !in s.open && sampled <= at
       case Finish(op, _, _) => op in s.open
       case Abandon(op, _) => op in s.open
  }

  function Step(s: State, e: Event): State
    requires Legal(s, e)
  {
    match e
    case Gate(op, email, sampled, at) =>
      State(s.log, at, s.open[op := Open(email, !LockedOut(s.log, email, sampled))])
    case Finish(op, success, at) =>
      var o := s.open[op];
      State(s.log + [Attempt(o.email, at, o.passed && success, !o.passed)], at, s.open - {op})
    case Abandon(op, at) =>
      State(s.log, at, s.open - {op})
  }

  /** An attempt passes the gate exactly when fewer than five failures of its email
      lie in the fifteen minutes before the clock it read; it is logged as a success
      only if it passed, and as locked if it did not. */
  lemma AttemptMeans(s: State, e: Event)
    requires Legal(s, e)
    ensures e.Gate? ==>
              var o := Step(s, e).open[e.op];
              && o.email == e.email && Step(s, e).log == s.log
              && (o.passed <==> |FailuresSince(s.log, e.email, e.sampled - 15 * 60 * 1_000_000)| < 5)
    ensures e.Finish? ==>
              var o := s.open[e.op];
              Step(s, e).log == s.log + [Attempt(o.email, e.at, o.passed && e.success, !o.passed)]
    ensures e.Abandon? ==> Step(s, e).log == s.log
  {
    if e.Gate? {
      FailuresAreCounted(s.log, e.email, e.sampled - LOCKOUT_WINDOW);
    }
  }

  predicate LegalRun(s: State, es: seq<Event>)
    decreases |es|
  {
    es == [] || (Legal(s, es[0]) && LegalRun(Step(s, es[0]), es[1..]))
  }

  function Run(s: State, es: seq<Event>): State
    requires LegalRun(s, es)
    decreases |es|
  {
    if es == [] then s else Run(Step(s, es[0]), es[1..])
  }

  /** Attempts for the email that passed the gate and are not logged yet. */
  function InFlight(s: State, email: string): set<nat> {
    set op | op in s.open && s.open[op] == Open(email, true)
  }

  /** At no point of the run are more than k such attempts in flight. */
  predicate OverlapAtMost(s: State, es: seq<Event>, email: string, k: nat)
    requires LegalRun(s, es)
    decreases |es|
  {
    |InFlight(s, email)| <= k && (es == [] || OverlapAtMost(Step(s, es[0]), es[1..], email, k))
  }

  // ----- the bound ----------------------------------------------------------------

  lemma {:induction false} GatedAreRecent(log: seq<Attempt>, email: string, from: Time, to: Time, cutoff: Time)
    requires cutoff <= from
    ensures GatedFailures(log, email, from, to) <= RecentFailures(log, email, cutoff)
  {
    if log == [] {
    } else {
      GatedAreRecent(log[..|log| - 1], email, from, to, cutoff);
    }
  }

  /** While the window is open, failures in it and attempts in flight together
      stay within the bound. */
  predicate Bounded(s: State, email: string, from: Time, k: nat) {
    var failed := GatedFailures(s.log, email, from, from + LOCKOUT_WINDOW);
    failed <= LOCKOUT_THRESHOLD - 1 + k
    && (s.clock <= from + LOCKOUT_WINDOW ==> failed + |InFlight(s, email)| <= LOCKOUT_THRESHOLD - 1 + k)
  }

  lemma FinishedAppends(log: seq<Attempt>, a: Attempt, email: string, from: Time, to: Time)
    ensures GatedFailures(log + [a], email, from, to) == GatedFailures(log, email, from, to)
              + (if a.email == email && !a.success && !a.locked && from <= a.at <= to then 1 else 0)
  {
    assert (log + [a])[..|log|] == log;
  }

  lemma StepKeepsBounded(s: State, e: Event, email: string, from: Time, k: nat)
    requires Legal(s, e) && Bounded(s, email, from, k) && |InFlight(Step(s, e), email)| <= k
    ensures Bounded(Step(s, e), email, from, k)
  {
    var s', to := Step(s, e), from + LOCKOUT_WINDOW;
    match e
    case Gate(op, who, sampled, at) =>
      if s'.open[op] == Open(email, true) {
        if at <= to {
          GatedAreRecent(s.log, email, from, to, sampled - LOCKOUT_WINDOW);
        }
      } else {
        assert InFlight(s', email) == InFlight(s, email);
      }
    case Finish(op, success, at) =>
      assert InFlight(s', email) == InFlight(s, email) - {op};
      FinishedAppends(s.log, s'.log[|s.log|], email, from, to);
    case Abandon(op, at) =>
      assert InFlight(s', email) == InFlight(s, email) - {op};
  }

  lemma {:induction false} RunKeepsBounded(s: State, es: seq<Event>, email: string, from: Time, k: nat)
    requires LegalRun(s, es) && OverlapAtMost(s, es, email, k) && Bounded(s, email, from, k)
    ensures Bounded(Run(s, es), email, from, k)
    decreases |es|
  {
    if es == [] {
    } else {
      StepKeepsBounded(s, es[0], email, from, k);
      RunKeepsBounded(Step(s, es[0]), es[1..], email, from, k);
    }
  }

  const START: State := State([], 0, map[])

  /** If at most k gated attempts for an email ever overlap, every 15-minute
      interval holds at most 4 + k of them that failed; without overlap, at
      most 5. Password and TOTP attempts count together. */
  lemma LockoutBound(es: seq<Event>, email: string, from: Time, k: nat)
    requires LegalRun(START, es) && OverlapAtMost(START, es, email, k)
    ensures GatedFailures(Run(START, es).log, email, from, from + LOCKOUT_WINDOW) <= LOCKOUT_THRESHOLD - 1 + k
  {
    assert InFlight(START, email) == {};
    RunKeepsBounded(START, es, email, from, k);
  }

  // ----- the bound is reached --------------------------------------------------------

  function Gates(first: nat, n: nat, email: string): seq<Event>
    decreases n
  {
    if n == 0 then [] else [Gate(first, email, 0, 0)] + Gates(first + 1, n - 1, email)
  }

  function Fails(first: nat, n: nat): seq<Event>
    decreases n
  {
    if n == 0 then [] else [Finish(first, false, 0)] + Fails(first + 1, n - 1)
  }

  /** n attempts that do not overlap. */
  function OneByOne(first: nat, n: nat, email: string): seq<Event>
    decreases n
  {
    if n == 0 then [] else
      [Gate(first, email, 0, 0)] + [Finish(first, false, 0)] + OneByOne(first + 1, n - 1, email)
  }

  function Interval(lo: nat, hi: nat): set<nat>
    decreases hi - lo
  {
    if lo >= hi then {} else {lo} + Interval(lo + 1, hi)
  }

  lemma {:induction false} IntervalSpec(lo: nat, hi: nat)
    requires lo <= hi
    ensures |Interval(lo, hi)| == hi - lo
    ensures forall op :: op in Interval(lo, hi) <==> lo <= op < hi
    decreases hi - lo
  {
    if lo == hi {
    } else {
      IntervalSpec(lo + 1, hi);
    }
  }

  /** The state in which n failures are logged and the attempts lo..hi are open. */
  function Failed(n: nat, lo: nat, hi: nat, email: string): State {
    State(seq(n, i => Attempt(email, 0, false, false)), 0, map op | op in Interval(lo, hi) :: Open(email, true))
  }

  lemma {:induction false} CountFailed(n: nat, email: string, cutoff: Time, to: Time)
    requires cutoff <= 0 <= to
    ensures RecentFailures(seq(n, i => Attempt(email, 0, false, false)), email, cutoff) == n
    ensures GatedFailures(seq(n, i => Attempt(email, 0, false, false)), email, cutoff, to) == n
  {
    if n == 0 {
    } else {
      var log := seq(n, i => Attempt(email, 0, false, false));
      assert log[..n - 1] == seq(n - 1, i => Attempt(email, 0, false, false));
      CountFailed(n - 1, email, cutoff, to);
    }
  }

  lemma InFlightFailed(n: nat, lo: nat, hi: nat, email: string)
    requires lo <= hi
    ensures |InFlight(Failed(n, lo, hi, email), email)| == hi - lo
  {
    IntervalSpec(lo, hi);
    assert InFlight(Failed(n, lo, hi, email), email) == Interval(lo, hi);
  }

  /** Running es from s ends in t, with at most k overlapping attempts. */
  predicate Reaches(s: State, es: seq<Event>, t: State, email: string, k: nat)
    decreases |es|
  {
    |InFlight(s, email)| <= k
    && if es == [] then s == t else Legal(s, es[0]) && Reaches(Step(s, es[0]), es[1..], t, email, k)
  }

  lemma {:induction false} ReachesMeans(s: State, es: seq<Event>, t: State, email: string, k: nat)
    requires Reaches(s, es, t, email, k)
    ensures LegalRun(s, es) && Run(s, es) == t && OverlapAtMost(s, es, email, k)
    decreases |es|
  {
    if es == [] {
    } else {
      ReachesMeans(Step(s, es[0]), es[1..], t, email, k);
    }
  }

  lemma {:induction false} ReachesTransitive(s: State, es: seq<Event>, t: State, fs: seq<Event>, u: State,
                                             email: string, k: nat)
    requires Reaches(s, es, t, email, k) && Reaches(t, fs, u, email, k)
    ensures Reaches(s, es + fs, u, email, k)
    decreases |es|
  {
    if es == [] {
      assert es + fs == fs;
    } else {
      assert (es + fs)[1..] == es[1..] + fs;
      ReachesTransitive(Step(s, es[0]), es[1..], t, fs, u, email, k);
    }
  }

  lemma ReachesStep(s: State, e: Event, t: State, email: string, k: nat)
    requires Legal(s, e) && Step(s, e) == t && |InFlight(s, email)| <= k && |InFlight(t, email)| <= k
    ensures Reaches(s, [e], t, email, k)
  {
    assert [e][1..] == [];
    assert Reaches(t, [], t, email, k);
  }

  lemma OpenOneMore(n: nat, lo: nat, hi: nat, email: string)
    requires lo <= hi
    ensures Failed(n, lo, hi + 1, email).open == Failed(n, lo, hi, email).open[hi := Open(email, true)]
    ensures hi !in Failed(n, lo, hi, email).open
  {
    IntervalSpec(lo, hi);
    IntervalSpec(lo, hi + 1);
  }

  lemma CloseFirst(n: nat, lo: nat, hi: nat, email: string)
    requires lo < hi
    ensures Failed(n + 1, lo + 1, hi, email).open == Failed(n, lo, hi, email).open - {lo}
    ensures lo in Failed(n, lo, hi, email).open && Failed(n, lo, hi, email).open[lo] == Open(email, true)
  {
    IntervalSpec(lo, hi);
    IntervalSpec(lo + 1, hi);
  }

  lemma LogOneMore(n: nat, email: string)
    ensures Failed(n + 1, 0, 0, email).log == Failed(n, 0, 0, email).log + [Attempt(email, 0, false, false)]
  {}

  lemma GateStep(n: nat, lo: nat, hi: nat, email: string, k: nat)
    requires n < LOCKOUT_THRESHOLD && lo <= hi && hi + 1 - lo <= k
    ensures Reaches(Failed(n, lo, hi, email), [Gate(hi, email, 0, 0)], Failed(n, lo, hi + 1, email), email, k)
  {
    CountFailed(n, email, -LOCKOUT_WINDOW, 0);
    OpenOneMore(n, lo, hi, email);
    InFlightFailed(n, lo, hi, email);
    InFlightFailed(n, lo, hi + 1, email);
    ReachesStep(Failed(n, lo, hi, email), Gate(hi, email, 0, 0), Failed(n, lo, hi + 1, email), email, k);
  }

  lemma FailStep(n: nat, lo: nat, hi: nat, email: string, k: nat)
    requires lo < hi && hi - lo <= k
    ensures Reaches(Failed(n, lo, hi, email), [Finish(lo, false, 0)], Failed(n + 1, lo + 1, hi, email), email, k)
  {
    CloseFirst(n, lo, hi, email);
    LogOneMore(n, email);
    InFlightFailed(n, lo, hi, email);
    InFlightFailed(n + 1, lo + 1, hi, email);
    ReachesStep(Failed(n, lo, hi, email), Finish(lo, false, 0), Failed(n + 1, lo + 1, hi, email), email, k);
  }

  lemma {:induction false} GatesReach(n: nat, lo: nat, hi: nat, m: nat, email: string, k: nat)
    requires n < LOCKOUT_THRESHOLD && lo <= hi && hi + m - lo <= k
    ensures Reaches(Failed(n, lo, hi, email), Gates(hi, m, email), Failed(n, lo, hi + m, email), email, k)
    decreases m
  {
    if m == 0 {
      InFlightFailed(n, lo, hi, email);
    } else {
      var s, t, u := Failed(n, lo, hi, email), Failed(n, lo, hi + 1, email), Failed(n, lo, hi + m, email);
      GateStep(n, lo, hi, email, k);
      GatesReach(n, lo, hi + 1, m - 1, email, k);
      ReachesTransitive(s, [Gate(hi, email, 0, 0)], t, Gates(hi + 1, m - 1, email), u, email, k);
    }
  }

  lemma {:induction false} FailsReach(n: nat, lo: nat, m: nat, email: string, k: nat)
    requires m <= k
    ensures Reaches(Failed(n, lo, lo + m, email), Fails(lo, m), Failed(n + m, lo + m, lo + m, email), email, k)
    decreases m
  {
    var s, u := Failed(n, lo, lo + m, email), Failed(n + m, lo + m, lo + m, email);
    if m == 0 {
      InFlightFailed(n, lo, lo, email);
    } else {
      FailStep(n, lo, lo + m, email, k);
      FailsReach(n + 1, lo + 1, m - 1, email, k);
      ReachesTransitive(s, [Finish(lo, false, 0)], Failed(n + 1, lo + 1, lo + m, email), Fails(lo + 1, m - 1), u,
                        email, k);
    }
  }

  lemma OneReaches(n: nat, email: string, k: nat)
    requires n < LOCKOUT_THRESHOLD && k >= 1
    ensures Reaches(Failed(n, n, n, email), [Gate(n, email, 0, 0)] + [Finish(n, false, 0)],
                    Failed(n + 1, n + 1, n + 1, email), email, k)
  {
    GateStep(n, n, n, email, k);
    FailStep(n, n, n + 1, email, k);
    ReachesTransitive(Failed(n, n, n, email), [Gate(n, email, 0, 0)], Failed(n, n, n + 1, email),
                      [Finish(n, false, 0)], Failed(n + 1, n + 1, n + 1, email), email, k);
  }

  lemma {:induction false} OneByOneReaches(n: nat, m: nat, email: string, k: nat)
    requires n + m <= LOCKOUT_THRESHOLD && k >= 1
    ensures Reaches(Failed(n, n, n, email), OneByOne(n, m, email), Failed(n + m, n + m, n + m, email), email, k)
    decreases m
  {
    var s, t, u := Failed(n, n, n, email), Failed(n + 1, n + 1, n + 1, email), Failed(n + m, n + m, n + m, email);
    if m == 0 {
      InFlightFailed(n, n, n, email);
    } else {
      OneReaches(n, email, k);
      OneByOneReaches(n + 1, m - 1, email, k);
      ReachesTransitive(s, [Gate(n, email, 0, 0)] + [Finish(n, false, 0)], t, OneByOne(n + 1, m - 1, email), u,
                        email, k);
    }
  }

  /** For every k the bound is reached: four failures one after the other, then k
      attempts that all pass the gate before any of them is logged. With two or
      more overlapping attempts the advertised limit of 5 is therefore exceeded. */
  lemma LockoutBoundIsTight(email: string, k: nat)
    requires k >= 1
    ensures var es := OneByOne(0, LOCKOUT_THRESHOLD - 1, email) + Gates(4, k, email) + Fails(4, k);
            && LegalRun(START, es) && OverlapAtMost(START, es, email, k)
            && GatedFailures(Run(START, es).log, email, 0, LOCKOUT_WINDOW) == LOCKOUT_THRESHOLD - 1 + k
  {
    TightRun(email, k);
    var es := OneByOne(0, 4, email) + Gates(4, k, email) + Fails(4, k);
    ReachesMeans(START, es, Failed(4 + k, 4 + k, 4 + k, email), email, k);
    CountFailed(4 + k, email, 0, LOCKOUT_WINDOW);
  }

  lemma FourThenGates(email: string, k: nat)
    requires k >= 1
    ensures Reaches(START, OneByOne(0, 4, email) + Gates(4, k, email), Failed(4, 4, 4 + k, email), email, k)
  {
    assert START == Failed(0, 0, 0, email);
    OneByOneReaches(0, 4, email, k);
    GatesReach(4, 4, 4, k, email, k);
    ReachesTransitive(START, OneByOne(0, 4, email), Failed(4, 4, 4, email), Gates(4, k, email),
                      Failed(4, 4, 4 + k, email), email, k);
  }

  lemma TightRun(email: string, k: nat)
    requires k >= 1
    ensures Reaches(START, OneByOne(0, 4, email) + Gates(4, k, email) + Fails(4, k),
                    Failed(4 + k, 4 + k, 4 + k, email), email, k)
  {
    FourThenGates(email, k);
    FailsReach(4, 4, k, email, k);
    ReachesTransitive(START, OneByOne(0, 4, email) + Gates(4, k, email), Failed(4, 4, 4 + k, email),
                      Fails(4, k), Failed(4 + k, 4 + k, 4 + k, email), email, k);
  }
}
