/** The fixed-window rate limiters of engramia/api/middleware.py and
    engramia/api/cloud_auth.py, which forget counters of old windows, against
    limiters that never forget. */
module RateLimits {
  import opened Options

  type Time = nat   // microseconds since the epoch
  const TICKS: nat := 1_000_000
  const WINDOW: nat := 60 * TICKS
  const GC_INTERVAL: nat := 300 * TICKS

  /** A counter's key: what it counts for, and the minute. */
  datatype Bucket = Bucket(name: seq<string>, window: int)

  type Counts = map<Bucket, nat>

  function WindowOf(t: Time): int {
    t / WINDOW
  }

  function Count(c: Counts, b: Bucket): nat {
    if b in c then c[b] else 0
  }

  function Bump(c: Counts, b: Bucket): Counts {
    c[b := Count(c, b) + 1]
  }

  function Keep(c: Counts, cutoff: int): Counts {
    map b | b in c && b.window >= cutoff :: c[b]
  }

  // ----- forgetting against never forgetting ------------------------------------------

  datatype Op = Hit(bucket: Bucket) | Forget(cutoff: int)

  function ApplyOp(c: Counts, op: Op): Counts {
    match op
    case Hit(b) => Bump(c, b)
    case Forget(cutoff) => Keep(c, cutoff)
  }

  /** The counters after a history of hits and collections. */
  function Counters(log: seq<Op>): Counts {
    if log == [] then map[] else ApplyOp(Counters(log[..|log| - 1]), log[|log| - 1])
  }

  /** What a limiter that never forgets has counted for b. */
  function Hits(log: seq<Op>, b: Bucket): nat {
    if log == [] then 0 else
      Hits(log[..|log| - 1], b) + (if log[|log| - 1] == Hit(b) then 1 else 0)
  }

  /** Some hit on b was later thrown away. */
  predicate Discarded(log: seq<Op>, b: Bucket) {
    exists i, j :: 0 <= i < j < |log| && log[i] == Hit(b) && log[j].Forget? && log[j].cutoff > b.window
  }

  lemma {:induction false} CountAtMostHits(log: seq<Op>, b: Bucket)
    ensures Count(Counters(log), b) <= Hits(log, b)
    ensures Hits(log, b) > 0 <==> Hit(b) in log
  {
    if log == [] {
    } else {
      CountAtMostHits(log[..|log| - 1], b);
      assert log == log[..|log| - 1] + [log[|log| - 1]];
    }
  }

  lemma DiscardedSplits(front: seq<Op>, last: Op, b: Bucket)
    ensures Discarded(front + [last], b) <==>
            Discarded(front, b) || (last.Forget? && last.cutoff > b.window && Hit(b) in front)
  {
    var log := front + [last];
    if Discarded(front, b) {
      var i, j :| 0 <= i < j < |front| && front[i] == Hit(b) && front[j].Forget? && front[j].cutoff > b.window;
      assert log[i] == Hit(b) && log[j].Forget? && log[j].cutoff > b.window;
    }
    if last.Forget? && last.cutoff > b.window && Hit(b) in front {
      var i :| 0 <= i < |front| && front[i] == Hit(b);
      assert log[i] == Hit(b) && log[|front|].Forget? && log[|front|].cutoff > b.window;
    }
    if Discarded(log, b) {
      var i, j :| 0 <= i < j < |log| && log[i] == Hit(b) && log[j].Forget? && log[j].cutoff > b.window;
      assert front[i] == Hit(b);
      assert j < |front| ==> front[j] == log[j];
    }
  }

  /** The forgetful counter of b agrees with the faithful one exactly as long as
      no hit on b has been discarded. */
  lemma {:induction false} AgreesUnlessDiscarded(log: seq<Op>, b: Bucket)
    ensures Count(Counters(log), b) == Hits(log, b) <==> !Discarded(log, b)
  {
    if log == [] {
    } else {
      var front, last := log[..|log| - 1], log[|log| - 1];
      assert log == front + [last];
      AgreesUnlessDiscarded(front, b);
      CountAtMostHits(front, b);
      DiscardedSplits(front, last, b);
    }
  }

  /** No collection so far reached the window of b. */
  predicate Untouched(log: seq<Op>, b: Bucket) {
    forall i :: 0 <= i < |log| && log[i].Forget? ==> log[i].cutoff <= b.window
  }

  lemma UntouchedAgrees(log: seq<Op>, b: Bucket)
    requires Untouched(log, b)
    ensures Count(Counters(log), b) == Hits(log, b)
  {
    AgreesUnlessDiscarded(log, b);
  }

  lemma LogOne(log: seq<Op>, op: Op, b: Bucket)
    ensures Counters(log + [op]) == ApplyOp(Counters(log), op)
    ensures Hits(log + [op], b) == Hits(log, b) + (if op == Hit(b) then 1 else 0)
  {
    assert (log + [op])[..|log|] == log;
  }

  /** The positions of the history that hit b. */
  function HitsAt(log: seq<Op>, b: Bucket): set<nat> {
    set i: nat | i < |log| && log[i] == Hit(b)
  }

  lemma {:induction false} HitsAreCounted(log: seq<Op>, b: Bucket)
    ensures Hits(log, b) == |HitsAt(log, b)|
  {
    if log == [] {
      assert HitsAt(log, b) == {};
    } else {
      var n := |log| - 1;
      HitsAreCounted(log[..n], b);
      if log[n] == Hit(b) {
        assert HitsAt(log, b) == HitsAt(log[..n], b) + {n};
      } else {
        assert HitsAt(log, b) == HitsAt(log[..n], b);
      }
    }
  }

  // ----- the request middleware ----------------------------------------------------------

  datatype Config = Config(defaultLimit: nat, expensiveLimit: nat, keyLimit: nat)

  /** A request and the clock as it is read before the lock, under the lock, and
      once more by a collection. */
  datatype Request = Request(ip: string, path: string, tokenHash: Option<string>,
                             sampled: Time, locked: Time, collected: Time)

  predicate Contains(s: string, fragment: string) {
    fragment <= s || (s != [] && Contains(s[1..], fragment))
  }

  function IpLimit(cfg: Config, path: string): nat {
    if Contains(path, "/evaluate") || Contains(path, "/compose") || Contains(path, "/evolve")
    then cfg.expensiveLimit else cfg.defaultLimit
  }

  predicate StartsAt(s: string, i: nat, fragment: string) {
    i + |fragment| <= |s| && s[i..i + |fragment|] == fragment
  }

  lemma StartsLater(s: string, i: nat, fragment: string)
    requires s != ""
    ensures StartsAt(s[1..], i, fragment) <==> StartsAt(s, i + 1, fragment)
  {
    if i + 1 + |fragment| <= |s| {
      assert s[1..][i..i + |fragment|] == s[i + 1..i + 1 + |fragment|];
    }
  }

  lemma StartsFirst(s: string, fragment: string)
    ensures StartsAt(s, 0, fragment) <==> fragment <= s
  {}

  lemma {:induction false} ContainsIff(s: string, fragment: string)
    ensures Contains(s, fragment) <==> exists i: nat :: StartsAt(s, i, fragment)
  {
    StartsFirst(s, fragment);
    if s == "" {
      assert forall i: nat :: StartsAt(s, i, fragment) ==> i == 0;
    } else {
      ContainsIff(s[1..], fragment);
      if i: nat :| StartsAt(s[1..], i, fragment) {
        StartsLater(s, i, fragment);
      }
      if i: nat :| StartsAt(s, i, fragment) {
        if i > 0 {
          StartsLater(s, i - 1, fragment);
        }
      }
    }
  }

  /** Somewhere in the path stands one of the three expensive fragments. */
  ghost predicate Expensive(path: string) {
    exists i: nat :: StartsAt(path, i, "/evaluate") || StartsAt(path, i, "/compose") || StartsAt(path, i, "/evolve")
  }

  lemma PathLimitIs(cfg: Config, path: string)
    ensures IpLimit(cfg, path) == if Expensive(path) then cfg.expensiveLimit else cfg.defaultLimit
  {
    ContainsIff(path, "/evaluate");
    ContainsIff(path, "/compose");
    ContainsIff(path, "/evolve");
  }

  function IpBucket(r: Request): Bucket {
    Bucket([r.ip, r.path], WindowOf(r.sampled))
  }

  function KeyBucket(r: Request): Bucket
    requires r.tokenHash.Some?
  {
    Bucket(["key", r.tokenHash.value], WindowOf(r.sampled))
  }

  /** The limiter's state as the history of its counter operations. */
  datatype State = State(log: seq<Op>, lastGc: Time)

  predicate Collects(s: State, r: Request) {
    r.locked > s.lastGc + GC_INTERVAL
  }

  function AfterGc(s: State, r: Request): seq<Op> {
    s.log + (if Collects(s, r) then [Forget(WindowOf(r.collected) - 1)] else [])
  }

  function AfterIp(s: State, r: Request): seq<Op> {
    AfterGc(s, r) + [Hit(IpBucket(r))]
  }

  function Serve(s: State, r: Request): State {
    State(AfterIp(s, r) + (if r.tokenHash.Some? then [Hit(KeyBucket(r))] else []),
          if Collects(s, r) then r.locked else s.lastGc)
  }

  /** The decision of the limiter that forgets. */
  predicate Accepts(cfg: Config, s: State, r: Request) {
    && Count(Counters(AfterIp(s, r)), IpBucket(r)) <= IpLimit(cfg, r.path)
    && (r.tokenHash.Some? ==> Count(Counters(Serve(s, r).log), KeyBucket(r)) <= cfg.keyLimit)
  }

  /** The decision of one that never does. */
  predicate FaithfulAccepts(cfg: Config, s: State, r: Request) {
    && Hits(AfterIp(s, r), IpBucket(r)) <= IpLimit(cfg, r.path)
    && (r.tokenHash.Some? ==> Hits(Serve(s, r).log, KeyBucket(r)) <= cfg.keyLimit)
  }

  /** A collection at a time keeps the counters of its minute and the one before,
      as they are, and nothing older. */
  lemma CollectionKeeps(log: seq<Op>, now: Time, b: Bucket)
    ensures var c, c' := Counters(log), Counters(log + [Forget(WindowOf(now) - 1)]);
            && (b in c' <==> b in c && b.window >= now / 60_000_000 - 1)
            && (b in c' ==> c'[b] == c[b])
  {
    LogOne(log, Forget(WindowOf(now) - 1), b);
  }

  /** A request collects when the last collection is more than five minutes old. */
  lemma CollectsEveryFiveMinutes(s: State, r: Request)
    ensures Serve(s, r).lastGc == if r.locked > s.lastGc + 300_000_000 then r.locked else s.lastGc
    ensures r.locked <= s.lastGc + 300_000_000 ==> AfterGc(s, r) == s.log
    ensures r.locked > s.lastGc + 300_000_000 ==> AfterGc(s, r) == s.log + [Forget(r.collected / 60_000_000 - 1)]
  {}

  class RateLimitMiddleware {
    const cfg: Config
    var counts: Counts
    var lastGc: Time
    ghost var log: seq<Op>

    ghost predicate Valid()
      reads this
    {
      counts == Counters(log)
    }

    constructor (cfg: Config, now: Time)
      ensures Valid() && this.cfg == cfg && lastGc == now && log == []
    {
      this.cfg := cfg;
      counts, lastGc, log := map[], now, [];
    }

    /** Removes the counters of previous windows. */
    method Collect(now: Time)
      requires Valid()
      modifies `counts, `log
      ensures Valid() && log == old(log) + [Forget(WindowOf(now) - 1)]
    {
      var cutoff := WindowOf(now) - 1;
      LogOne(log, Forget(cutoff), Bucket([], 0));
      counts := map b | b in counts && b.window >= cutoff :: counts[b];
      log := log + [Forget(cutoff)];
    }

    method Increment(b: Bucket) returns (count: nat)
      requires Valid()
      modifies `counts, `log
      ensures Valid() && log == old(log) + [Hit(b)]
      ensures count == Count(Counters(log), b) == Count(Counters(old(log)), b) + 1
    {
      LogOne(log, Hit(b), b);
      count := (if b in counts then counts[b] else 0) + 1;
      counts := counts[b := count];
      log := log + [Hit(b)];
    }

    /** Counts the request in its buckets, collecting old counters at most every
        five minutes, and decides. */
    method Dispatch(r: Request) returns (accepted: bool)
      requires Valid()
      modifies this
      ensures Valid() && State(log, lastGc) == Serve(State(old(log), old(lastGc)), r)
      ensures accepted <==> Accepts(cfg, State(old(log), old(lastGc)), r)
    {
      ghost var s := State(log, lastGc);
      if r.locked > lastGc + GC_INTERVAL {
        Collect(r.collected);
        lastGc := r.locked;
      }
      assert log == AfterGc(s, r);
      var ipCount := Increment(IpBucket(r));
      var keyCount := 0;
      if r.tokenHash.Some? {
        keyCount := Increment(KeyBucket(r));
      }
      assert log == Serve(s, r).log;
      if ipCount > IpLimit(cfg, r.path) {
        return false;
      }
      return !(r.tokenHash.Some? && keyCount > cfg.keyLimit);
    }
  }

  // ----- runs of the middleware -------------------------------------------------------------

  /** Requests take the lock in clock order, and none is counted for a minute
      more than one before the one it finds under the lock. */
  predicate Prompt(rs: seq<Request>, from: Time) {
    rs == [] || (
      && from <= rs[0].locked <= rs[0].collected
      && WindowOf(rs[0].collected) - 1 <= WindowOf(rs[0].sampled)
      && Prompt(rs[1..], rs[0].collected))
  }

  /** No collection up to `now` reaches a window that is still in use. */
  predicate CollectedBefore(log: seq<Op>, now: Time) {
    forall i :: 0 <= i < |log| && log[i].Forget? ==> log[i].cutoff <= WindowOf(now) - 1
  }

  lemma WindowMonotone(a: Time, b: Time)
    requires a <= b
    ensures WindowOf(a) <= WindowOf(b)
  {}

  /** One request: the decision is the faithful one. */
  lemma DecisionIsFaithful(cfg: Config, s: State, r: Request, from: Time)
    requires CollectedBefore(s.log, from) && from <= r.locked <= r.collected
    requires WindowOf(r.collected) - 1 <= WindowOf(r.sampled)
    ensures Accepts(cfg, s, r) <==> FaithfulAccepts(cfg, s, r)
    ensures CollectedBefore(Serve(s, r).log, r.collected)
  {
    WindowMonotone(from, r.collected);
    var log := Serve(s, r).log;
    assert CollectedBefore(AfterGc(s, r), r.collected);
    assert CollectedBefore(log, r.collected);
    UntouchedAgrees(AfterIp(s, r), IpBucket(r));
    if r.tokenHash.Some? {
      UntouchedAgrees(log, KeyBucket(r));
    }
  }

  /** When a request is accepted: its address and path have room in its minute, and
      so has its key; a request counts itself, and only there. */
  lemma AcceptedIff(cfg: Config, s: State, r: Request, from: Time)
    requires CollectedBefore(s.log, from) && from <= r.locked <= r.collected
    requires WindowOf(r.collected) - 1 <= WindowOf(r.sampled)
    ensures var minute := r.sampled / 60_000_000;
            var byPath := Bucket([r.ip, r.path], minute);
            Accepts(cfg, s, r) <==>
              && Hits(s.log, byPath) < (if Expensive(r.path) then cfg.expensiveLimit else cfg.defaultLimit)
              && (r.tokenHash.Some? ==>
                    var byKey := Bucket(["key", r.tokenHash.value], minute);
                    Hits(s.log, byKey) + (if byKey == byPath then 1 else 0) < cfg.keyLimit)
  {
    DecisionIsFaithful(cfg, s, r, from);
    PathLimitIs(cfg, r.path);
    ServeCounts(s, r, IpBucket(r));
    if r.tokenHash.Some? {
      ServeCounts(s, r, KeyBucket(r));
    }
  }

  lemma CountedWhereItBelongs(s: State, r: Request, b: Bucket)
    ensures Hits(Serve(s, r).log, b) ==
            Hits(s.log, b) + (if b == Bucket([r.ip, r.path], r.sampled / 60_000_000) then 1 else 0)
              + (if r.tokenHash.Some? && b == Bucket(["key", r.tokenHash.value], r.sampled / 60_000_000) then 1 else 0)
  {
    ServeCounts(s, r, b);
  }

  /** All decisions of the run agree. */
  predicate AllFaithful(cfg: Config, s: State, rs: seq<Request>)
    decreases |rs|
  {
    rs == [] || (
      && (Accepts(cfg, s, rs[0]) <==> FaithfulAccepts(cfg, s, rs[0]))
      && AllFaithful(cfg, Serve(s, rs[0]), rs[1..]))
  }

  /** With collection the limiter makes exactly the decisions of one that never
      discards a counter, as long as requests are prompt. */
  lemma {:induction false} CollectionIsInvisible(cfg: Config, s: State, rs: seq<Request>, from: Time)
    requires CollectedBefore(s.log, from) && Prompt(rs, from)
    ensures AllFaithful(cfg, s, rs)
    decreases |rs|
  {
    if rs == [] {
    } else {
      DecisionIsFaithful(cfg, s, rs[0], from);
      CollectionIsInvisible(cfg, Serve(s, rs[0]), rs[1..], rs[0].collected);
    }
  }

  /** Accepted requests of a run that count towards b, as their IP bucket. */
  function AcceptedIp(cfg: Config, s: State, rs: seq<Request>, b: Bucket): nat
    decreases |rs|
  {
    if rs == [] then 0 else
      (if IpBucket(rs[0]) == b && Accepts(cfg, s, rs[0]) then 1 else 0) + AcceptedIp(cfg, Serve(s, rs[0]), rs[1..], b)
  }

  /** ... and as their key bucket. */
  function AcceptedKey(cfg: Config, s: State, rs: seq<Request>, b: Bucket): nat
    decreases |rs|
  {
    if rs == [] then 0 else
      (if rs[0].tokenHash.Some? && KeyBucket(rs[0]) == b && Accepts(cfg, s, rs[0]) then 1 else 0)
      + AcceptedKey(cfg, Serve(s, rs[0]), rs[1..], b)
  }

  function Remaining(limit: nat, used: nat): nat {
    if used < limit then limit - used else 0
  }

  lemma ServeCounts(s: State, r: Request, b: Bucket)
    ensures Hits(AfterIp(s, r), b) == Hits(s.log, b) + (if IpBucket(r) == b then 1 else 0)
    ensures Hits(Serve(s, r).log, b) ==
            Hits(AfterIp(s, r), b) + (if r.tokenHash.Some? && KeyBucket(r) == b then 1 else 0)
  {
    if Collects(s, r) {
      LogOne(s.log, Forget(WindowOf(r.collected) - 1), b);
    } else {
      assert AfterGc(s, r) == s.log;
    }
    LogOne(AfterGc(s, r), Hit(IpBucket(r)), b);
    if r.tokenHash.Some? {
      LogOne(AfterIp(s, r), Hit(KeyBucket(r)), b);
    } else {
      assert Serve(s, r).log == AfterIp(s, r);
    }
  }

  /** Accepted requests per address, path and minute stay within the limit. */
  lemma {:induction false} IpLimitHolds(cfg: Config, s: State, rs: seq<Request>, from: Time, b: Bucket)
    requires CollectedBefore(s.log, from) && Prompt(rs, from) && |b.name| == 2
    ensures AcceptedIp(cfg, s, rs, b) <= Remaining(IpLimit(cfg, b.name[1]), Hits(s.log, b))
    decreases |rs|
  {
    if rs == [] {
    } else {
      DecisionIsFaithful(cfg, s, rs[0], from);
      ServeCounts(s, rs[0], b);
      IpLimitHolds(cfg, Serve(s, rs[0]), rs[1..], rs[0].collected, b);
    }
  }

  /** Accepted requests per API key and minute stay within the limit. */
  lemma {:induction false} KeyLimitHolds(cfg: Config, s: State, rs: seq<Request>, from: Time, b: Bucket)
    requires CollectedBefore(s.log, from) && Prompt(rs, from)
    ensures AcceptedKey(cfg, s, rs, b) <= Remaining(cfg.keyLimit, Hits(s.log, b))
    decreases |rs|
  {
    if rs == [] {
    } else {
      DecisionIsFaithful(cfg, s, rs[0], from);
      ServeCounts(s, rs[0], b);
      KeyLimitHolds(cfg, Serve(s, rs[0]), rs[1..], rs[0].collected, b);
    }
  }

  /** Accepted requests of one address and path in one minute: at most the expensive
      limit where the path names an expensive operation, the default elsewhere. */
  lemma PathLimitHolds(cfg: Config, rs: seq<Request>, start: Time, ip: string, path: string, minute: int)
    requires Prompt(rs, start)
    ensures AcceptedIp(cfg, State([], start), rs, Bucket([ip, path], minute)) <=
            if Expensive(path) then cfg.expensiveLimit else cfg.defaultLimit
  {
    PathLimitIs(cfg, path);
    IpLimitHolds(cfg, State([], start), rs, start, Bucket([ip, path], minute));
  }

  /** Accepted requests of one address and path sampled within 60 seconds of t. */
  function AcceptedWithin(cfg: Config, s: State, rs: seq<Request>, name: seq<string>, t: Time): nat
    decreases |rs|
  {
    if rs == [] then 0 else
      (if IpBucket(rs[0]).name == name && t <= rs[0].sampled < t + WINDOW && Accepts(cfg, s, rs[0]) then 1 else 0)
      + AcceptedWithin(cfg, Serve(s, rs[0]), rs[1..], name, t)
  }

  lemma SpanCoversTwoWindows(t: Time, x: Time)
    requires t <= x < t + WINDOW
    ensures WindowOf(x) == WindowOf(t) || WindowOf(x) == WindowOf(t) + 1
  {}

  lemma {:induction false} SpanIsTwoBuckets(cfg: Config, s: State, rs: seq<Request>, name: seq<string>, t: Time)
    ensures AcceptedWithin(cfg, s, rs, name, t) <=
            AcceptedIp(cfg, s, rs, Bucket(name, WindowOf(t))) + AcceptedIp(cfg, s, rs, Bucket(name, WindowOf(t) + 1))
    decreases |rs|
  {
    if rs == [] {
    } else {
      if t <= rs[0].sampled < t + WINDOW {
        SpanCoversTwoWindows(t, rs[0].sampled);
      }
      SpanIsTwoBuckets(cfg, Serve(s, rs[0]), rs[1..], name, t);
    }
  }

  /** Any 60 seconds, wherever they start, accept at most twice the limit. */
  lemma SpanLimitHolds(cfg: Config, rs: seq<Request>, start: Time, ip: string, path: string, t: Time)
    requires Prompt(rs, start)
    ensures AcceptedWithin(cfg, State([], start), rs, [ip, path], t) <= 2 * IpLimit(cfg, path)
  {
    SpanIsTwoBuckets(cfg, State([], start), rs, [ip, path], t);
    IpLimitHolds(cfg, State([], start), rs, start, Bucket([ip, path], WindowOf(t)));
    IpLimitHolds(cfg, State([], start), rs, start, Bucket([ip, path], WindowOf(t) + 1));
  }

  /** Accepted requests with one API key sampled within 60 seconds of t. */
  function KeyAcceptedWithin(cfg: Config, s: State, rs: seq<Request>, tokenHash: string, t: Time): nat
    decreases |rs|
  {
    if rs == [] then 0 else
      (if rs[0].tokenHash == Some(tokenHash) && t <= rs[0].sampled < t + WINDOW && Accepts(cfg, s, rs[0]) then 1 else 0)
      + KeyAcceptedWithin(cfg, Serve(s, rs[0]), rs[1..], tokenHash, t)
  }

  lemma {:induction false} KeySpanIsTwoBuckets(cfg: Config, s: State, rs: seq<Request>, tokenHash: string, t: Time)
    ensures KeyAcceptedWithin(cfg, s, rs, tokenHash, t) <=
            AcceptedKey(cfg, s, rs, Bucket(["key", tokenHash], WindowOf(t)))
            + AcceptedKey(cfg, s, rs, Bucket(["key", tokenHash], WindowOf(t) + 1))
    decreases |rs|
  {
    if rs == [] {
    } else {
      if t <= rs[0].sampled < t + WINDOW {
        SpanCoversTwoWindows(t, rs[0].sampled);
      }
      KeySpanIsTwoBuckets(cfg, Serve(s, rs[0]), rs[1..], tokenHash, t);
    }
  }

  /** The same for each API key, over all addresses and paths together. */
  lemma KeySpanLimitHolds(cfg: Config, rs: seq<Request>, start: Time, tokenHash: string, t: Time)
    requires Prompt(rs, start)
    ensures KeyAcceptedWithin(cfg, State([], start), rs, tokenHash, t) <= 2 * cfg.keyLimit
  {
    KeySpanIsTwoBuckets(cfg, State([], start), rs, tokenHash, t);
    KeyLimitHolds(cfg, State([], start), rs, start, Bucket(["key", tokenHash], WindowOf(t)));
    KeyLimitHolds(cfg, State([], start), rs, start, Bucket(["key", tokenHash], WindowOf(t) + 1));
  }

  // ----- the cloud-auth limiters ----------------------------------------------------------------

  /** One of the four per-endpoint limiters; its name is the caller's address,
      or address and e-mail. */
  class CloudLimiter {
    const limit: nat
    var rate: Counts
    ghost var log: seq<Op>

    ghost predicate Valid()
      reads this
    {
      rate == Counters(log)
    }

    constructor (limit: nat)
      ensures Valid() && this.limit == limit && log == []
    {
      this.limit := limit;
      rate, log := map[], [];
    }

    /** Deletes the stale entries found by one scan. */
    method Evict(window: int)
      requires Valid()
      modifies `rate, `log
      ensures Valid() && log == old(log) + [Forget(window - 1)] && rate == Keep(old(rate), window - 1)
    {
      ghost var before := rate;
      var stale := set b | b in rate && b.window < window - 1;
      while stale != {}
        invariant stale <= before.Keys && forall b :: b in stale ==> b.window < window - 1
        invariant rate.Keys <= before.Keys && forall b :: b in rate ==> rate[b] == before[b]
        invariant forall b :: b in before ==> (b in rate <==> b in stale || b.window >= window - 1)
        invariant log == old(log)
        decreases |stale|
      {
        var b :| b in stale;
        rate := rate - {b};
        stale := stale - {b};
      }
      LogOne(log, Forget(window - 1), Bucket([], 0));
      log := log + [Forget(window - 1)];
    }

    method Increment(key: Bucket) returns (count: nat)
      requires Valid()
      modifies `rate, `log
      ensures Valid() && log == old(log) + [Hit(key)]
      ensures count == Count(old(rate), key) + 1
    {
      LogOne(log, Hit(key), key);
      count := (if key in rate then rate[key] else 0) + 1;
      rate := rate[key := count];
      log := log + [Hit(key)];
    }

    /** Counts the call, then evicts the windows before the previous one. While
        no earlier call came from a window two or more ahead, the decision is
        that of a limiter that never evicts. */
    method Check(name: seq<string>, now: Time) returns (allowed: bool)
      requires Valid()
      modifies this
      ensures Valid()
      ensures log == old(log) + [Hit(Bucket(name, WindowOf(now)))] + [Forget(WindowOf(now) - 1)]
      ensures allowed <==> Count(old(rate), Bucket(name, WindowOf(now))) < limit
      ensures Untouched(old(log), Bucket(name, WindowOf(now))) ==>
                (allowed <==> Hits(old(log), Bucket(name, now / 60_000_000)) < limit)
    {
      var key := Bucket(name, WindowOf(now));
      if Untouched(log, key) {
        UntouchedAgrees(log, key);
      }
      var count := Increment(key);
      Evict(WindowOf(now));
      allowed := count <= limit;
    }
  }

  datatype CloudCall = CloudCall(name: seq<string>, at: Time)

  function CloudBucket(c: CloudCall): Bucket {
    Bucket(c.name, WindowOf(c.at))
  }

  /** The history of a cloud limiter that served these calls. */
  function CloudLog(calls: seq<CloudCall>): seq<Op> {
    if calls == [] then [] else
      var c := calls[|calls| - 1];
      CloudLog(calls[..|calls| - 1]) + [Hit(CloudBucket(c))] + [Forget(WindowOf(c.at) - 1)]
  }

  /** Eviction never changes a decision as long as no call is two or more
      windows behind one served before it. */
  lemma {:induction false} EvictionIsInvisible(calls: seq<CloudCall>, b: Bucket)
    requires forall i :: 0 <= i < |calls| ==> WindowOf(calls[i].at) - 1 <= b.window
    ensures Untouched(CloudLog(calls), b)
    ensures Count(Counters(CloudLog(calls)), b) == Hits(CloudLog(calls), b)
  {
    if calls == [] {
    } else {
      EvictionIsInvisible(calls[..|calls| - 1], b);
    }
    UntouchedAgrees(CloudLog(calls), b);
  }

  /** No call comes two or more windows behind one served before it. */
  predicate InStep(calls: seq<CloudCall>) {
    forall i, j :: 0 <= i < j < |calls| ==> WindowOf(calls[i].at) - 1 <= WindowOf(calls[j].at)
  }

  /** The decision of `Check` on a limiter that served `before`. */
  predicate Allows(limit: nat, before: seq<CloudCall>, c: CloudCall) {
    Count(Counters(CloudLog(before)), CloudBucket(c)) < limit
  }

  /** Allowed calls that count towards b. */
  function Allowed(limit: nat, calls: seq<CloudCall>, b: Bucket): nat {
    if calls == [] then 0 else
      var front, c := calls[..|calls| - 1], calls[|calls| - 1];
      Allowed(limit, front, b) + (if CloudBucket(c) == b && Allows(limit, front, c) then 1 else 0)
  }

  lemma CloudHits(front: seq<CloudCall>, c: CloudCall, b: Bucket)
    ensures Hits(CloudLog(front + [c]), b) == Hits(CloudLog(front), b) + (if CloudBucket(c) == b then 1 else 0)
  {
    assert (front + [c])[..|front|] == front;
    LogOne(CloudLog(front), Hit(CloudBucket(c)), b);
    LogOne(CloudLog(front) + [Hit(CloudBucket(c))], Forget(WindowOf(c.at) - 1), b);
  }

  /** Allowed calls per caller and minute never exceed the limit. */
  lemma {:induction false} CloudLimitHolds(limit: nat, calls: seq<CloudCall>, b: Bucket)
    requires InStep(calls)
    ensures Allowed(limit, calls, b) <= limit
    ensures Allowed(limit, calls, b) <= Hits(CloudLog(calls), b)
  {
    if calls == [] {
    } else {
      var front, c := calls[..|calls| - 1], calls[|calls| - 1];
      assert calls == front + [c];
      CloudLimitHolds(limit, front, b);
      CloudHits(front, c, b);
      if CloudBucket(c) == b {
        EvictionIsInvisible(front, b);
      }
    }
  }

  /** Allowed calls of one caller within 60 seconds of t. */
  function AllowedWithin(limit: nat, calls: seq<CloudCall>, name: seq<string>, t: Time): nat {
    if calls == [] then 0 else
      var front, c := calls[..|calls| - 1], calls[|calls| - 1];
      AllowedWithin(limit, front, name, t)
      + (if c.name == name && t <= c.at < t + WINDOW && Allows(limit, front, c) then 1 else 0)
  }

  lemma {:induction false} CloudSpanIsTwoBuckets(limit: nat, calls: seq<CloudCall>, name: seq<string>, t: Time)
    ensures AllowedWithin(limit, calls, name, t) <=
            Allowed(limit, calls, Bucket(name, WindowOf(t))) + Allowed(limit, calls, Bucket(name, WindowOf(t) + 1))
  {
    if calls == [] {
    } else {
      var front, c := calls[..|calls| - 1], calls[|calls| - 1];
      CloudSpanIsTwoBuckets(limit, front, name, t);
      if t <= c.at < t + WINDOW {
        SpanCoversTwoWindows(t, c.at);
      }
    }
  }

  /** ... nor twice the limit in any 60 seconds. */
  lemma CloudSpanLimitHolds(limit: nat, calls: seq<CloudCall>, name: seq<string>, t: Time)
    requires InStep(calls)
    ensures AllowedWithin(limit, calls, name, t) <= 2 * limit
  {
    CloudSpanIsTwoBuckets(limit, calls, name, t);
    CloudLimitHolds(limit, calls, Bucket(name, WindowOf(t)));
    CloudLimitHolds(limit, calls, Bucket(name, WindowOf(t) + 1));
  }
}
