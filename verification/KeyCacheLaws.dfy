/** What the API-key cache promises under every interleaving of lookups and table
    writes: bounded staleness, and exactly when a revoked or rotated secret is
    refused; and, when calls do not overlap, exact LRU order. */
module KeyCacheLaws {
  import opened Options
  import opened KeyCache

  // ----- interleaved runs ----------------------------------------------------------

  /** A lookup between its steps: clock sampled, missed, row fetched. */
  datatype Call =
    | Sampled(hash: Hash, start: Time)
    | Missed(hash: Hash, start: Time)
    | Fetched(hash: Hash, start: Time, row: Option<KeyInfo>)

  datatype Answer = Answer(hash: Hash, start: Time, row: Option<KeyInfo>)

  datatype Snapshot = Snapshot(at: Time, keys: Keys)

  datatype World = World(
    keys: Keys,
    cache: Cache,
    clock: Time,
    calls: map<nat, Call>,
    history: seq<Snapshot>,   // the table as each step found it
    answers: seq<Answer>)

  /** The database read happens outside the cache lock; a write may replace the
      table by any other, as revoking, rotating, creating and expiring do. */
  datatype Event =
    | Start(call: nat, hash: Hash, at: Time)
    | ProbeStep(call: nat, at: Time)
    | ReadStep(call: nat, reachable: bool, at: Time)
    | InsertStep(call: nat, at: Time)
    | WriteStep(keys: Keys, at: Time)
    | EvictStep(hash: Hash, at: Time)

  ghost predicate Legal(w: World, e: Event) {
    && w.clock <= e.at
    && match e
       case Start(c, _, _) => c !in w.calls
       case ProbeStep(c, _) => c in w.calls && w.calls[c].Sampled?
       case ReadStep(c, _, _) => c in w.calls && w.calls[c].Missed?
       case InsertStep(c, _) => c in w.calls && w.calls[c].Fetched?
       case _ => true
  }

  function Wait(w: World, at: Time): World {
    w.(clock := at, history := w.history + [Snapshot(at, w.keys)])
  }

  function Reply(w: World, c: nat, cache: Cache, a: Answer): World {
    w.(cache := cache, calls := w.calls - {c}, answers := w.answers + [a])
  }

  function StoreAndReply(w: World, c: nat): World
    requires c in w.calls && w.calls[c].Fetched?
  {
    var k := w.calls[c];
    Reply(w, c, Insert(w.cache, k.hash, Entry(k.start + CACHE_TTL, k.row)), Answer(k.hash, k.start, k.row))
  }

  ghost function Step(w: World, e: Event): World
    requires Legal(w, e)
  {
    var w1 := Wait(w, e.at);
    match e
    case Start(c, h, at) => w1.(calls := w.calls[c := Sampled(h, at)])
    case ProbeStep(c, _) =>
      var k := w.calls[c];
      var cache := AfterProbe(w.cache, k.hash, k.start);
      if Hit(w.cache, k.hash, k.start)
      then Reply(w1, c, cache, Answer(k.hash, k.start, w.cache.entries[k.hash].row))
      else w1.(cache := cache, calls := w.calls[c := Missed(k.hash, k.start)])
    case ReadStep(c, reachable, at) =>
      var k := w.calls[c];
      w1.(calls := w.calls[c := Fetched(k.hash, k.start, if reachable then DbLookup(w.keys, k.hash, at) else None)])
    case InsertStep(c, _) => StoreAndReply(w1, c)
    case WriteStep(keys, _) => w1.(keys := keys)
    case EvictStep(h, _) => w1.(cache := Remove(w.cache, h))
  }

  ghost predicate LegalRun(w: World, es: seq<Event>)
    decreases |es|
  {
    es == [] || (Legal(w, es[0]) && LegalRun(Step(w, es[0]), es[1..]))
  }

  ghost function Run(w: World, es: seq<Event>): World
    requires LegalRun(w, es)
    decreases |es|
  {
    if es == [] then w else Run(Step(w, es[0]), es[1..])
  }

  ghost function Initial(keys: Keys): World {
    World(keys, Cache([], map[]), 0, map[], [], [])
  }

  /** The table held this row, usable, at some recorded time not before `from`. */
  ghost predicate SeenSince(history: seq<Snapshot>, h: Hash, row: KeyInfo, from: Time) {
    exists i :: 0 <= i < |history| && history[i].at >= from && DbLookup(history[i].keys, h, history[i].at) == Some(row)
  }

  ghost predicate AnswerSound(history: seq<Snapshot>, a: Answer) {
    a.row.Some? ==> exists from :: from > a.start - CACHE_TTL && SeenSince(history, a.hash, a.row.value, from)
  }

  ghost predicate EntrySound(history: seq<Snapshot>, h: Hash, e: Entry) {
    e.row.Some? ==> SeenSince(history, h, e.row.value, e.expiresAt - CACHE_TTL)
  }

  ghost predicate CallSound(history: seq<Snapshot>, k: Call, clock: Time) {
    k.start <= clock && (k.Fetched? && k.row.Some? ==> SeenSince(history, k.hash, k.row.value, k.start))
  }

  ghost predicate CacheSound(c: Cache, history: seq<Snapshot>) {
    forall h :: h in c.entries ==> EntrySound(history, h, c.entries[h])
  }

  ghost predicate CallsSound(calls: map<nat, Call>, history: seq<Snapshot>, clock: Time) {
    forall c :: c in calls ==> CallSound(history, calls[c], clock)
  }

  ghost predicate AnswersSound(answers: seq<Answer>, history: seq<Snapshot>) {
    forall i :: 0 <= i < |answers| ==> AnswerSound(history, answers[i])
  }

  ghost predicate Inv(w: World) {
    && WellFormed(w.cache) && |w.cache.order| <= CACHE_MAX
    && CacheSound(w.cache, w.history)
    && CallsSound(w.calls, w.history, w.clock)
    && AnswersSound(w.answers, w.history)
  }

  lemma SeenStaysSeen(history: seq<Snapshot>, s: Snapshot, h: Hash, row: KeyInfo, from: Time)
    requires SeenSince(history, h, row, from)
    ensures SeenSince(history + [s], h, row, from)
  {
    var i :| 0 <= i < |history| && history[i].at >= from && DbLookup(history[i].keys, h, history[i].at) == Some(row);
    assert (history + [s])[i] == history[i];
  }

  lemma SeenNow(history: seq<Snapshot>, s: Snapshot, h: Hash, row: KeyInfo, from: Time)
    requires s.at >= from && DbLookup(s.keys, h, s.at) == Some(row)
    ensures SeenSince(history + [s], h, row, from)
  {
    assert (history + [s])[|history|] == s;
  }

  /** The clock and the history may always advance. */
  lemma WaitKeeps(w: World, at: Time)
    requires Inv(w) && w.clock <= at
    ensures Inv(Wait(w, at))
  {
    var s := Snapshot(at, w.keys);
    var history' := w.history + [s];
    forall h | h in w.cache.entries
      ensures EntrySound(history', h, w.cache.entries[h])
    {
      var e := w.cache.entries[h];
      assert EntrySound(w.history, h, e);
      if e.row.Some? {
        SeenStaysSeen(w.history, s, h, e.row.value, e.expiresAt - CACHE_TTL);
      }
    }
    forall c | c in w.calls
      ensures CallSound(history', w.calls[c], at)
    {
      var k := w.calls[c];
      assert CallSound(w.history, k, w.clock);
      if k.Fetched? && k.row.Some? {
        SeenStaysSeen(w.history, s, k.hash, k.row.value, k.start);
      }
    }
    forall i | 0 <= i < |w.answers|
      ensures AnswerSound(history', w.answers[i])
    {
      var a := w.answers[i];
      assert AnswerSound(w.history, a);
      if a.row.Some? {
        var from :| from > a.start - CACHE_TTL && SeenSince(w.history, a.hash, a.row.value, from);
        SeenStaysSeen(w.history, s, a.hash, a.row.value, from);
      }
    }
  }

  lemma ProbeKeepsSound(c: Cache, h: Hash, now: Time, history: seq<Snapshot>)
    requires WellFormed(c) && CacheSound(c, history)
    ensures CacheSound(AfterProbe(c, h, now), history)
    ensures Hit(c, h, now) ==> AnswerSound(history, Answer(h, now, c.entries[h].row))
  {
    ProbeKeeps(c, h, now);
    if Hit(c, h, now) {
      assert EntrySound(history, h, c.entries[h]);
    }
  }

  lemma InsertKeepsSound(c: Cache, k: Call, history: seq<Snapshot>, clock: Time)
    requires WellFormed(c) && |c.order| <= CACHE_MAX && CacheSound(c, history)
    requires k.Fetched? && CallSound(history, k, clock)
    ensures CacheSound(Insert(c, k.hash, Entry(k.start + CACHE_TTL, k.row)), history)
  {
    InsertKeepsOthers(c, k.hash, Entry(k.start + CACHE_TTL, k.row));
  }

  lemma ReadIsSound(w: World, k: Call, at: Time, reachable: bool)
    requires w.clock <= at && CallSound(w.history, k, w.clock)
    ensures var row := if reachable then DbLookup(w.keys, k.hash, at) else None;
            CallSound(w.history + [Snapshot(at, w.keys)], Fetched(k.hash, k.start, row), at)
  {
    if reachable && DbLookup(w.keys, k.hash, at).Some? {
      SeenNow(w.history, Snapshot(at, w.keys), k.hash, DbLookup(w.keys, k.hash, at).value, k.start);
    }
  }

  lemma ReplyKeeps(w: World, c: nat, cache: Cache, a: Answer)
    requires Inv(w) && WellFormed(cache) && |cache.order| <= CACHE_MAX
    requires CacheSound(cache, w.history) && AnswerSound(w.history, a)
    ensures Inv(Reply(w, c, cache, a))
  {}

  lemma ProbeStepKeeps(w: World, c: nat, at: Time)
    requires Inv(w) && Legal(w, ProbeStep(c, at))
    ensures Inv(Step(w, ProbeStep(c, at)))
  {
    var w1, k := Wait(w, at), w.calls[c];
    WaitKeeps(w, at);
    ProbeKeeps(w1.cache, k.hash, k.start);
    ProbeKeepsSound(w1.cache, k.hash, k.start, w1.history);
    assert CallSound(w1.history, w1.calls[c], w1.clock);
    if Hit(w1.cache, k.hash, k.start) {
      ReplyKeeps(w1, c, AfterProbe(w1.cache, k.hash, k.start), Answer(k.hash, k.start, w1.cache.entries[k.hash].row));
    }
  }

  lemma ReadStepKeeps(w: World, c: nat, reachable: bool, at: Time)
    requires Inv(w) && Legal(w, ReadStep(c, reachable, at))
    ensures Inv(Step(w, ReadStep(c, reachable, at)))
  {
    WaitKeeps(w, at);
    assert CallSound(w.history, w.calls[c], w.clock);
    ReadIsSound(w, w.calls[c], at, reachable);
  }

  lemma StoreKeepsShape(w: World, c: nat)
    requires WellFormed(w.cache) && |w.cache.order| <= CACHE_MAX && c in w.calls && w.calls[c].Fetched?
    ensures WellFormed(StoreAndReply(w, c).cache) && |StoreAndReply(w, c).cache.order| <= CACHE_MAX
  {
    InsertKeepsShape(w.cache, w.calls[c].hash, Entry(w.calls[c].start + CACHE_TTL, w.calls[c].row));
  }

  lemma StoreKeepsCache(w: World, c: nat)
    requires Inv(w) && c in w.calls && w.calls[c].Fetched?
    ensures CacheSound(StoreAndReply(w, c).cache, w.history)
  {
    assert CallSound(w.history, w.calls[c], w.clock);
    InsertKeepsSound(w.cache, w.calls[c], w.history, w.clock);
  }

  lemma StoreKeepsAnswers(w: World, c: nat)
    requires CallsSound(w.calls, w.history, w.clock) && AnswersSound(w.answers, w.history)
    requires c in w.calls && w.calls[c].Fetched?
    ensures CallsSound(StoreAndReply(w, c).calls, w.history, w.clock)
    ensures AnswersSound(StoreAndReply(w, c).answers, w.history)
  {
    var k := w.calls[c];
    assert CallSound(w.history, k, w.clock);
    assert k.row.Some? ==> k.start > k.start - CACHE_TTL && SeenSince(w.history, k.hash, k.row.value, k.start);
  }

  lemma StoreKeeps(w: World, c: nat)
    requires Inv(w) && c in w.calls && w.calls[c].Fetched?
    ensures Inv(StoreAndReply(w, c))
  {
    StoreKeepsShape(w, c);
    StoreKeepsCache(w, c);
    StoreKeepsAnswers(w, c);
  }

  lemma InsertStepKeeps(w: World, c: nat, at: Time)
    requires Inv(w) && Legal(w, InsertStep(c, at))
    ensures Inv(Step(w, InsertStep(c, at)))
  {
    WaitKeeps(w, at);
    StoreKeeps(Wait(w, at), c);
  }

  lemma EvictStepKeeps(w: World, h: Hash, at: Time)
    requires Inv(w) && Legal(w, EvictStep(h, at))
    ensures Inv(Step(w, EvictStep(h, at)))
  {
    WaitKeeps(w, at);
    RemoveKeeps(w.cache, h);
  }

  lemma StepKeepsInv(w: World, e: Event)
    requires Inv(w) && Legal(w, e)
    ensures Inv(Step(w, e))
  {
    match e
    case Start(_, _, at) => WaitKeeps(w, at);
    case ProbeStep(c, at) => ProbeStepKeeps(w, c, at);
    case ReadStep(c, reachable, at) => ReadStepKeeps(w, c, reachable, at);
    case InsertStep(c, at) => InsertStepKeeps(w, c, at);
    case WriteStep(_, at) => WaitKeeps(w, at);
    case EvictStep(h, at) => EvictStepKeeps(w, h, at);
  }

  lemma {:induction false} RunKeepsInv(w: World, es: seq<Event>)
    requires Inv(w) && LegalRun(w, es)
    ensures Inv(Run(w, es))
    decreases |es|
  {
    if es == [] {
    } else {
      StepKeepsInv(w, es[0]);
      RunKeepsInv(Step(w, es[0]), es[1..]);
    }
  }

  /** Some row of the table bears h, is not revoked and not expired, and is this. */
  ghost predicate Opens(keys: Keys, h: Hash, now: Time, info: KeyInfo) {
    exists k :: k in keys && keys[k].hash == h && !keys[k].revoked
      && (keys[k].expiresAt.None? || keys[k].expiresAt.value > now) && keys[k].info == info
  }

  /** Under every interleaving with every kind of table write, a row returned by
      a lookup that began at time t was usable in the table at some time later
      than t - 60s; and the cache never exceeds its capacity. */
  lemma BoundedStaleness(keys: Keys, es: seq<Event>, i: nat)
    requires LegalRun(Initial(keys), es)
    ensures |Run(Initial(keys), es).cache.order| <= CACHE_MAX
    ensures var w := Run(Initial(keys), es);
            i < |w.answers| && w.answers[i].row.Some? ==>
              exists j :: 0 <= j < |w.history| && w.history[j].at > w.answers[i].start - 60_000_000
                && Opens(w.history[j].keys, w.answers[i].hash, w.history[j].at, w.answers[i].row.value)
  {
    RunKeepsInv(Initial(keys), es);
    var w := Run(Initial(keys), es);
    if i < |w.answers| && w.answers[i].row.Some? {
      var a := w.answers[i];
      assert AnswerSound(w.history, a);
      var from :| from > a.start - CACHE_TTL && SeenSince(w.history, a.hash, a.row.value, from);
      var j :| 0 <= j < |w.history| && w.history[j].at >= from
               && DbLookup(w.history[j].keys, a.hash, w.history[j].at) == Some(a.row.value);
      assert Opens(w.history[j].keys, a.hash, w.history[j].at, a.row.value);
    }
  }

  /** A lookup fetches the row, the key is revoked and evicted, the lookup
      stores what it fetched, and a second lookup begins. */
  function OverlappingRevocation(revoked: Keys): seq<Event> {
    [Start(0, "h", 0), ProbeStep(0, 0), ReadStep(0, true, 0)] + [WriteStep(revoked, 1), EvictStep("h", 1)]
    + [InsertStep(0, 2), Start(1, "h", 3), ProbeStep(1, 3)]
  }

  lemma {:induction false} RunSplits(w: World, es: seq<Event>, fs: seq<Event>)
    requires LegalRun(w, es) && LegalRun(Run(w, es), fs)
    ensures LegalRun(w, es + fs) && Run(w, es + fs) == Run(Run(w, es), fs)
    decreases |es|
  {
    if es == [] {
      assert es + fs == fs;
    } else {
      assert (es + fs)[1..] == es[1..] + fs;
      RunSplits(Step(w, es[0]), es[1..], fs);
    }
  }

  lemma RunOne(w: World, e: Event)
    requires Legal(w, e)
    ensures LegalRun(w, [e]) && Run(w, [e]) == Step(w, e)
  {
    assert [e][1..] == [];
  }

  lemma RunTwo(w: World, e: Event, f: Event)
    requires Legal(w, e) && Legal(Step(w, e), f)
    ensures LegalRun(w, [e, f]) && Run(w, [e, f]) == Step(Step(w, e), f)
  {
    RunOne(w, e);
    RunOne(Step(w, e), f);
    RunSplits(w, [e], [f]);
    assert [e] + [f] == [e, f];
  }

  /** Eviction does not stop a lookup that has fetched the row already: here one
      that begins after the revocation and its eviction is still answered with
      the revoked key's row. */
  lemma OverlapOutlivesEviction(info: KeyInfo)
    ensures var keys := map["k" := KeyRow("h", info, false, None)];
            var revoked := map["k" := KeyRow("h", info, true, None)];
            var es := OverlappingRevocation(revoked);
            && LegalRun(Initial(keys), es)
            && Answer("h", 3, Some(info)) in Run(Initial(keys), es).answers
            && DbLookup(revoked, "h", 1).None?
  {
    var keys: Keys := map["k" := KeyRow("h", info, false, None)];
    var revoked: Keys := map["k" := KeyRow("h", info, true, None)];
    var w := Initial(keys);
    var fetched := AfterFetch(w, info);
    var gone := AfterEviction(fetched, revoked);
    AfterSecondLookup(gone, info);
    var a, b := [Start(0, "h", 0), ProbeStep(0, 0), ReadStep(0, true, 0)], [WriteStep(revoked, 1), EvictStep("h", 1)];
    RunSplits(w, a, b);
    RunSplits(w, a + b, [InsertStep(0, 2), Start(1, "h", 3), ProbeStep(1, 3)]);
  }

  lemma AfterFetch(w: World, info: KeyInfo) returns (w': World)
    requires w == Initial(map["k" := KeyRow("h", info, false, None)])
    ensures LegalRun(w, [Start(0, "h", 0), ProbeStep(0, 0), ReadStep(0, true, 0)])
    ensures w' == Run(w, [Start(0, "h", 0), ProbeStep(0, 0), ReadStep(0, true, 0)])
    ensures w'.calls == map[0 := Fetched("h", 0, Some(info))] && w'.clock == 0 && w'.cache == Cache([], map[])
  {
    var w1 := Step(w, Start(0, "h", 0));
    var w2 := Step(w1, ProbeStep(0, 0));
    assert Without([], "h") == [];
    assert w2.cache == Cache([], map[]);
    assert Usable(w.keys["k"], "h", 0);
    w' := Step(w2, ReadStep(0, true, 0));
    RunOne(w, Start(0, "h", 0));
    RunOne(w1, ProbeStep(0, 0));
    RunOne(w2, ReadStep(0, true, 0));
    RunSplits(w, [Start(0, "h", 0)], [ProbeStep(0, 0)]);
    RunSplits(w, [Start(0, "h", 0)] + [ProbeStep(0, 0)], [ReadStep(0, true, 0)]);
    assert [Start(0, "h", 0)] + [ProbeStep(0, 0)] + [ReadStep(0, true, 0)] ==
           [Start(0, "h", 0), ProbeStep(0, 0), ReadStep(0, true, 0)];
  }

  lemma AfterEviction(w: World, revoked: Keys) returns (w': World)
    requires w.clock == 0 && w.cache == Cache([], map[])
    ensures LegalRun(w, [WriteStep(revoked, 1), EvictStep("h", 1)])
    ensures w' == Run(w, [WriteStep(revoked, 1), EvictStep("h", 1)])
    ensures w'.calls == w.calls && w'.clock == 1 && w'.cache == Cache([], map[])
  {
    var w1 := Step(w, WriteStep(revoked, 1));
    w' := Step(w1, EvictStep("h", 1));
    assert Without([], "h") == [];
    assert w'.cache == Cache([], map[]);
    RunOne(w, WriteStep(revoked, 1));
    RunOne(w1, EvictStep("h", 1));
    RunSplits(w, [WriteStep(revoked, 1)], [EvictStep("h", 1)]);
    assert [WriteStep(revoked, 1)] + [EvictStep("h", 1)] == [WriteStep(revoked, 1), EvictStep("h", 1)];
  }

  lemma AfterSecondLookup(w: World, info: KeyInfo)
    requires w.clock == 1 && w.cache == Cache([], map[]) && w.calls == map[0 := Fetched("h", 0, Some(info))]
    ensures LegalRun(w, [InsertStep(0, 2), Start(1, "h", 3), ProbeStep(1, 3)])
    ensures Answer("h", 3, Some(info)) in Run(w, [InsertStep(0, 2), Start(1, "h", 3), ProbeStep(1, 3)]).answers
  {
    var w1 := Step(w, InsertStep(0, 2));
    assert w1.cache == Cache(["h"], map["h" := Entry(CACHE_TTL, Some(info))]);
    var w2 := Step(w1, Start(1, "h", 3));
    var w3 := Step(w2, ProbeStep(1, 3));
    assert w3.answers == w2.answers + [Answer("h", 3, Some(info))];
    RunOne(w, InsertStep(0, 2));
    RunOne(w1, Start(1, "h", 3));
    RunOne(w2, ProbeStep(1, 3));
    RunSplits(w, [InsertStep(0, 2)], [Start(1, "h", 3)]);
    RunSplits(w, [InsertStep(0, 2)] + [Start(1, "h", 3)], [ProbeStep(1, 3)]);
    assert [InsertStep(0, 2)] + [Start(1, "h", 3)] + [ProbeStep(1, 3)] ==
           [InsertStep(0, 2), Start(1, "h", 3), ProbeStep(1, 3)];
  }

  /** A lookup fetches the row, the key is revoked, and the lookup returns only
      after a delay. */
  function LateReturn(revoked: Keys, delay: nat): seq<Event> {
    [Start(0, "h", 0), ProbeStep(0, 0), ReadStep(0, true, 0)] + [WriteStep(revoked, 1), InsertStep(0, 1 + delay)]
  }

  /** Staleness is bounded from the start of a lookup only: for every delay one
      returns, that long after the key was revoked, with its row. */
  lemma ReturnCanBeLate(info: KeyInfo, delay: nat)
    ensures var keys := map["k" := KeyRow("h", info, false, None)];
            var revoked := map["k" := KeyRow("h", info, true, None)];
            var w := Initial(keys);
            && LegalRun(w, LateReturn(revoked, delay))
            && Answer("h", 0, Some(info)) in Run(w, LateReturn(revoked, delay)).answers
            && Dead(revoked, "h") && Run(w, LateReturn(revoked, delay)).clock == 1 + delay
  {
    var revoked: Keys := map["k" := KeyRow("h", info, true, None)];
    var w := Initial(map["k" := KeyRow("h", info, false, None)]);
    var later := [WriteStep(revoked, 1), InsertStep(0, 1 + delay)];
    var w1 := AfterFetch(w, info);
    RunTwo(w1, later[0], later[1]);
    assert Run(w1, later).answers == w1.answers + [Answer("h", 0, Some(info))];
    RunSplits(w, [Start(0, "h", 0), ProbeStep(0, 0), ReadStep(0, true, 0)], later);
  }

  // ----- when a revoked secret is refused -----------------------------------------------

  /** Every row that bears h is revoked. */
  ghost predicate Dead(keys: Keys, h: Hash) {
    forall k :: k in keys && keys[k].hash == h ==> keys[k].revoked
  }

  /** No write of the run hands the secret h out again. */
  ghost predicate StaysDead(es: seq<Event>, h: Hash) {
    forall i :: 0 <= i < |es| ==> KeepsDead(es[i], h)
  }

  ghost predicate KeepsDead(e: Event, h: Hash) {
    e.WriteStep? ==> Dead(e.keys, h)
  }

  /** No cached answer for h opens anything at time t. */
  predicate NothingCached(c: Cache, h: Hash, t: Time) {
    h in c.entries && c.entries[h].row.Some? ==> c.entries[h].expiresAt <= t
  }

  /** No lookup in flight is about to cache a row for h beyond time t. */
  predicate NothingFetched(calls: map<nat, Call>, h: Hash, t: Time) {
    forall c :: c in calls && calls[c].Fetched? && calls[c].hash == h && calls[c].row.Some? ==>
      calls[c].start + CACHE_TTL <= t
  }

  predicate Harmless(w: World, h: Hash, t: Time) {
    NothingCached(w.cache, h, t) && NothingFetched(w.calls, h, t)
  }

  predicate Refuses(a: Answer, h: Hash, t: Time) {
    a.hash == h && a.start >= t ==> a.row.None?
  }

  /** From the n-th answer on, lookups of h that began at t or later are refused. */
  predicate RefusedFrom(answers: seq<Answer>, n: nat, h: Hash, t: Time) {
    forall i :: n <= i < |answers| ==> Refuses(answers[i], h, t)
  }

  ghost predicate Shaped(w: World) {
    WellFormed(w.cache) && |w.cache.order| <= CACHE_MAX
  }

  ghost predicate Closed(w: World, n: nat, h: Hash, t: Time) {
    Shaped(w) && Dead(w.keys, h) && Harmless(w, h, t) && RefusedFrom(w.answers, n, h, t)
  }

  lemma DeadIsNotFound(keys: Keys, h: Hash, now: Time)
    requires Dead(keys, h)
    ensures DbLookup(keys, h, now).None?
  {}

  lemma ProbeKeepsClosed(w: World, c: nat, at: Time, n: nat, h: Hash, t: Time)
    requires Closed(w, n, h, t) && Legal(w, ProbeStep(c, at))
    ensures Closed(Step(w, ProbeStep(c, at)), n, h, t)
  {
    ProbeKeeps(w.cache, w.calls[c].hash, w.calls[c].start);
  }

  lemma StoreKeepsNothingCached(w: World, c: nat, h: Hash, t: Time)
    requires Shaped(w) && Harmless(w, h, t) && c in w.calls && w.calls[c].Fetched?
    ensures NothingCached(StoreAndReply(w, c).cache, h, t)
  {
    InsertKeepsOthers(w.cache, w.calls[c].hash, Entry(w.calls[c].start + CACHE_TTL, w.calls[c].row));
  }

  lemma StoreKeepsRefusing(w: World, c: nat, n: nat, h: Hash, t: Time)
    requires NothingFetched(w.calls, h, t) && RefusedFrom(w.answers, n, h, t) && c in w.calls && w.calls[c].Fetched?
    ensures NothingFetched(StoreAndReply(w, c).calls, h, t)
    ensures RefusedFrom(StoreAndReply(w, c).answers, n, h, t)
  {
    assert Refuses(Answer(w.calls[c].hash, w.calls[c].start, w.calls[c].row), h, t);
  }

  lemma InsertKeepsClosed(w: World, c: nat, at: Time, n: nat, h: Hash, t: Time)
    requires Closed(w, n, h, t) && Legal(w, InsertStep(c, at))
    ensures Closed(Step(w, InsertStep(c, at)), n, h, t)
  {
    StoreKeepsShape(Wait(w, at), c);
    StoreKeepsNothingCached(Wait(w, at), c, h, t);
    StoreKeepsRefusing(Wait(w, at), c, n, h, t);
  }

  lemma StepKeepsClosed(w: World, e: Event, n: nat, h: Hash, t: Time)
    requires Closed(w, n, h, t) && Legal(w, e) && KeepsDead(e, h)
    ensures Closed(Step(w, e), n, h, t)
  {
    match e
    case Start(_, _, _) =>
    case ProbeStep(c, at) => ProbeKeepsClosed(w, c, at, n, h, t);
    case ReadStep(c, _, at) => DeadIsNotFound(w.keys, h, at);
    case InsertStep(c, at) => InsertKeepsClosed(w, c, at, n, h, t);
    case WriteStep(_, _) =>
    case EvictStep(x, _) => RemoveKeeps(w.cache, x);
  }

  lemma {:induction false} RunKeepsClosed(w: World, es: seq<Event>, n: nat, h: Hash, t: Time)
    requires Closed(w, n, h, t) && LegalRun(w, es) && StaysDead(es, h)
    ensures Closed(Run(w, es), n, h, t)
    decreases |es|
  {
    if es == [] {
    } else {
      assert KeepsDead(es[0], h);
      assert forall i :: 0 <= i < |es| - 1 ==> es[1..][i] == es[i + 1];
      StepKeepsClosed(w, es[0], n, h, t);
      RunKeepsClosed(Step(w, es[0]), es[1..], n, h, t);
    }
  }

  /** In every continuation from w in which h stays dead, every lookup of h that
      begins no earlier than now is refused. */
  ghost predicate RefusedForever(w: World, h: Hash) {
    forall es :: LegalRun(w, es) && StaysDead(es, h) ==> RefusedFrom(Run(w, es).answers, |w.answers|, h, w.clock)
  }

  lemma {:induction false} FreeCall(calls: set<nat>) returns (c: nat)
    ensures c !in calls
    ensures forall x :: x in calls ==> x < c
    decreases |calls|
  {
    if calls == {} {
      c := 0;
    } else {
      var x :| x in calls;
      var d := FreeCall(calls - {x});
      c := if d <= x then x + 1 else d;
      assert forall y :: y in calls ==> y == x || y in calls - {x};
    }
  }

  /** A lookup of h that begins now and finds this answer cached. */
  lemma CachedIsAnswered(w: World, c: nat, h: Hash)
    requires c !in w.calls && Hit(w.cache, h, w.clock)
    ensures LegalRun(w, [Start(c, h, w.clock), ProbeStep(c, w.clock)])
    ensures Run(w, [Start(c, h, w.clock), ProbeStep(c, w.clock)]).answers ==
            w.answers + [Answer(h, w.clock, w.cache.entries[h].row)]
  {
    var e1, e2 := Start(c, h, w.clock), ProbeStep(c, w.clock);
    var w1 := Step(w, e1);
    RunOne(w, e1);
    RunOne(w1, e2);
    RunSplits(w, [e1], [e2]);
    assert [e1] + [e2] == [e1, e2];
  }

  lemma CachedOpens(w: World, h: Hash)
    requires !NothingCached(w.cache, h, w.clock)
    ensures !RefusedForever(w, h)
  {
    var c := FreeCall(w.calls.Keys);
    CachedIsAnswered(w, c, h);
    var es := [Start(c, h, w.clock), ProbeStep(c, w.clock)];
    assert StaysDead(es, h);
    assert !Refuses(Run(w, es).answers[|w.answers|], h, w.clock);
  }

  /** The lookup in flight stores its row, and a lookup of h that begins now is
      answered with it. */
  lemma FetchedOpens(w: World, c: nat, h: Hash)
    requires Shaped(w) && c in w.calls && w.calls[c].Fetched? && w.calls[c].hash == h && w.calls[c].row.Some?
    requires w.calls[c].start + CACHE_TTL > w.clock
    ensures !RefusedForever(w, h)
  {
    var k := w.calls[c];
    var e := InsertStep(c, w.clock);
    var w1 := Step(w, e);
    RunOne(w, e);
    InsertKeepsOthers(w.cache, h, Entry(k.start + CACHE_TTL, k.row));
    CachedIsAnswered(w1, c, h);
    var later := [Start(c, h, w.clock), ProbeStep(c, w.clock)];
    RunSplits(w, [e], later);
    assert StaysDead([e] + later, h);
    assert !Refuses(Run(w, [e] + later).answers[|w.answers| + 1], h, w.clock);
  }

  /** Exactly when a revoked secret is refused from now on: lookups that begin now
      or later are refused under every interleaving if and only if no unexpired
      row is cached for the secret and no lookup in flight that began less than
      60s ago has fetched one. */
  lemma RefusedForeverIff(w: World, h: Hash)
    requires WellFormed(w.cache) && |w.cache.order| <= CACHE_MAX && Dead(w.keys, h)
    ensures RefusedForever(w, h) <==> NothingCached(w.cache, h, w.clock) && NothingFetched(w.calls, h, w.clock)
  {
    if !NothingCached(w.cache, h, w.clock) {
      CachedOpens(w, h);
    } else if !NothingFetched(w.calls, h, w.clock) {
      var c :| c in w.calls && w.calls[c].Fetched? && w.calls[c].hash == h && w.calls[c].row.Some?
               && w.calls[c].start + CACHE_TTL > w.clock;
      FetchedOpens(w, c, h);
    } else {
      forall es | LegalRun(w, es) && StaysDead(es, h)
        ensures RefusedFrom(Run(w, es).answers, |w.answers|, h, w.clock)
      {
        RunKeepsClosed(w, es, |w.answers|, h, w.clock);
      }
    }
  }

  // ----- revocation and rotation ----------------------------------------------------------

  /** The table after `revoke_key` or `rotate_key` of a key. */
  ghost predicate Withdrawn(keys: Keys, id: KeyId, keys': Keys)
    requires id in keys
  {
    || keys' == keys[id := keys[id].(revoked := true)]
    || exists newHash :: newHash != keys[id].hash && keys' == keys[id := keys[id].(hash := newHash)]
  }

  lemma WithdrawnIsDead(keys: Keys, id: KeyId, keys': Keys)
    requires id in keys && Withdrawn(keys, id, keys')
    requires forall k :: k in keys && keys[k].hash == keys[id].hash ==> k == id
    ensures Dead(keys', keys[id].hash)
  {}

  lemma StepKeepsShape(w: World, e: Event)
    requires Shaped(w) && Legal(w, e)
    ensures Shaped(Step(w, e))
  {
    match e
    case Start(_, _, _) =>
    case ProbeStep(c, _) => ProbeKeeps(w.cache, w.calls[c].hash, w.calls[c].start);
    case ReadStep(_, _, _) =>
    case InsertStep(c, at) => StoreKeepsShape(Wait(w, at), c);
    case WriteStep(_, _) =>
    case EvictStep(x, _) => RemoveKeeps(w.cache, x);
  }

  /** While h is dead no lookup fetches a row for it. */
  lemma StepKeepsDead(w: World, e: Event, h: Hash, t: Time)
    requires Dead(w.keys, h) && Legal(w, e) && KeepsDead(e, h)
    ensures Dead(Step(w, e).keys, h)
    ensures NothingFetched(w.calls, h, t) ==> NothingFetched(Step(w, e).calls, h, t)
  {
    if e.ReadStep? {
      DeadIsNotFound(w.keys, h, e.at);
    }
  }

  lemma {:induction false} RunKeepsDead(w: World, es: seq<Event>, h: Hash, t: Time)
    requires Shaped(w) && Dead(w.keys, h) && LegalRun(w, es) && StaysDead(es, h)
    ensures Shaped(Run(w, es)) && Dead(Run(w, es).keys, h)
    ensures NothingFetched(w.calls, h, t) ==> NothingFetched(Run(w, es).calls, h, t)
    decreases |es|
  {
    if es == [] {
    } else {
      assert KeepsDead(es[0], h);
      assert forall i :: 0 <= i < |es| - 1 ==> es[1..][i] == es[i + 1];
      StepKeepsShape(w, es[0]);
      StepKeepsDead(w, es[0], h, t);
      RunKeepsDead(Step(w, es[0]), es[1..], h, t);
    }
  }

  /** The rest of a revocation or rotation: it writes the row, other steps run, and
      it evicts g. */
  ghost predicate WithdrawalLegal(w: World, keys': Keys, at: Time, between: seq<Event>, evictAt: Time) {
    && w.clock <= at
    && var w1 := Step(w, WriteStep(keys', at));
       LegalRun(w1, between) && Run(w1, between).clock <= evictAt
  }

  ghost function BeforeEviction(w: World, keys': Keys, at: Time, between: seq<Event>): World
    requires w.clock <= at && LegalRun(Step(w, WriteStep(keys', at)), between)
  {
    Run(Step(w, WriteStep(keys', at)), between)
  }

  ghost function AfterWithdrawal(w: World, keys': Keys, at: Time, between: seq<Event>, g: Hash, evictAt: Time): World
    requires WithdrawalLegal(w, keys', at, between, evictAt)
  {
    Step(BeforeEviction(w, keys', at, between), EvictStep(g, evictAt))
  }

  lemma EvictionLeavesCached(c: Cache, g: Hash, h: Hash, t: Time)
    ensures NothingCached(Remove(c, g), h, t) <==> g == h || NothingCached(c, h, t)
  {}

  /** Whatever hash g is evicted, the secret h that the write withdrew is refused
      from then on if and only if no young lookup in flight has fetched its row,
      and g is h or no unexpired row is cached for h. */
  lemma WithdrawnIsRefusedIff(w: World, id: KeyId, keys': Keys, at: Time, between: seq<Event>, g: Hash, evictAt: Time)
    requires WellFormed(w.cache) && |w.cache.order| <= CACHE_MAX
    requires id in w.keys && Withdrawn(w.keys, id, keys')
    requires forall k :: k in w.keys && w.keys[k].hash == w.keys[id].hash ==> k == id
    requires WithdrawalLegal(w, keys', at, between, evictAt) && StaysDead(between, w.keys[id].hash)
    ensures var h := w.keys[id].hash;
            var w' := AfterWithdrawal(w, keys', at, between, g, evictAt);
            && (RefusedForever(w', h) <==>
                NothingFetched(w'.calls, h, evictAt)
                && (g == h || NothingCached(BeforeEviction(w, keys', at, between).cache, h, evictAt)))
            && (NothingFetched(w.calls, h, evictAt) ==> NothingFetched(w'.calls, h, evictAt))
  {
    var h := w.keys[id].hash;
    var w1 := Step(w, WriteStep(keys', at));
    WithdrawnIsDead(w.keys, id, keys');
    RunKeepsDead(w1, between, h, evictAt);
    var w2 := Run(w1, between);
    StepKeepsShape(w2, EvictStep(g, evictAt));
    StepKeepsDead(w2, EvictStep(g, evictAt), h, evictAt);
    EvictionLeavesCached(w2.cache, g, h, evictAt);
    RefusedForeverIff(Step(w2, EvictStep(g, evictAt)), h);
  }

  lemma {:induction false} RunKeepsShape(w: World, es: seq<Event>)
    requires Shaped(w) && LegalRun(w, es)
    ensures Shaped(Run(w, es))
    decreases |es|
  {
    if es == [] {
    } else {
      StepKeepsShape(w, es[0]);
      RunKeepsShape(Step(w, es[0]), es[1..]);
    }
  }

  /** A whole revocation or rotation of a key, each of its three accesses a step of
      its own: in w it reads the hash g that the row bears; other steps run; it
      writes by id alone; other steps run; it evicts g. Once it returns, the secret
      h that its write withdrew is refused to every lookup that begins from then on
      if and only if
      - no lookup in flight that began less than 60s ago has fetched h's row, and
      - h is g, or no unexpired row is cached for h. */
  lemma OldSecretIsRefused(w: World, id: KeyId, before: seq<Event>, keys': Keys, at: Time, between: seq<Event>,
                           evictAt: Time)
    requires WellFormed(w.cache) && |w.cache.order| <= CACHE_MAX && id in w.keys && LegalRun(w, before)
    requires var w0 := Run(w, before);
             && id in w0.keys && Withdrawn(w0.keys, id, keys')
             && (forall k :: k in w0.keys && w0.keys[k].hash == w0.keys[id].hash ==> k == id)
             && WithdrawalLegal(w0, keys', at, between, evictAt) && StaysDead(between, w0.keys[id].hash)
    ensures var w0, g := Run(w, before), w.keys[id].hash;
            var h := w0.keys[id].hash;
            var w' := AfterWithdrawal(w0, keys', at, between, g, evictAt);
            RefusedForever(w', h) <==>
              NothingFetched(w'.calls, h, evictAt)
              && (g == h || NothingCached(BeforeEviction(w0, keys', at, between).cache, h, evictAt))
  {
    RunKeepsShape(w, before);
    WithdrawnIsRefusedIff(Run(w, before), id, keys', at, between, w.keys[id].hash, evictAt);
  }

  /** No write of the run gives the key another hash. */
  ghost predicate KeepsHash(es: seq<Event>, id: KeyId, h: Hash) {
    forall i :: 0 <= i < |es| && es[i].WriteStep? ==> id in es[i].keys && es[i].keys[id].hash == h
  }

  lemma {:induction false} HashStays(w: World, es: seq<Event>, id: KeyId, h: Hash)
    requires LegalRun(w, es) && id in w.keys && w.keys[id].hash == h && KeepsHash(es, id, h)
    ensures id in Run(w, es).keys && Run(w, es).keys[id].hash == h
    decreases |es|
  {
    if es == [] {
    } else {
      assert KeepsHash(es[1..], id, h) by {
        assert forall i :: 0 <= i < |es| - 1 ==> es[1..][i] == es[i + 1];
      }
      assert id in Step(w, es[0]).keys && Step(w, es[0]).keys[id].hash == h;
      HashStays(Step(w, es[0]), es[1..], id, h);
    }
  }

  /** When no other call gives the key a new hash between the read and the write,
      only lookups in flight matter; and none does unless it had fetched the old
      row before the write. */
  lemma UncontestedIsRefusedIff(w: World, id: KeyId, before: seq<Event>, keys': Keys, at: Time, between: seq<Event>,
                                evictAt: Time)
    requires WellFormed(w.cache) && |w.cache.order| <= CACHE_MAX && id in w.keys && LegalRun(w, before)
    requires KeepsHash(before, id, w.keys[id].hash)
    requires var w0 := Run(w, before);
             && (id in w0.keys ==> Withdrawn(w0.keys, id, keys'))
             && (forall k :: k in w0.keys && w0.keys[k].hash == w.keys[id].hash ==> k == id)
             && WithdrawalLegal(w0, keys', at, between, evictAt) && StaysDead(between, w.keys[id].hash)
    ensures var w0, h := Run(w, before), w.keys[id].hash;
            var w' := AfterWithdrawal(w0, keys', at, between, h, evictAt);
            && (RefusedForever(w', h) <==> NothingFetched(w'.calls, h, evictAt))
            && (NothingFetched(w0.calls, h, evictAt) ==> RefusedForever(w', h))
  {
    RunKeepsShape(w, before);
    HashStays(w, before, id, w.keys[id].hash);
    WithdrawnIsRefusedIff(Run(w, before), id, keys', at, between, w.keys[id].hash, evictAt);
  }

  // ----- calls that do not overlap ----------------------------------------------------

  datatype Calm = Calm(keys: Keys, cache: Cache, uses: seq<Hash>)

  /** Whole calls, one after the other. */
  datatype Op =
    | Lookup(hash: Hash, now: Time, reachable: bool)
    | RevokeKey(id: KeyId)
    | RotateKey(id: KeyId, newHash: Hash)
    | CreateKey(id: KeyId, row: KeyRow)

  ghost function LookupAnswer(s: Calm, h: Hash, now: Time, reachable: bool): Option<KeyInfo> {
    if Hit(s.cache, h, now) then s.cache.entries[h].row
    else if reachable then DbLookup(s.keys, h, now) else None
  }

  ghost function Do(s: Calm, op: Op): Calm {
    match op
    case Lookup(h, now, reachable) =>
      var c := AfterProbe(s.cache, h, now);
      s.(cache := if Hit(s.cache, h, now) then c
                  else Insert(c, h, Entry(now + CACHE_TTL, LookupAnswer(s, h, now, reachable))),
         uses := s.uses + [h])
    case RevokeKey(id) =>
      if id !in s.keys || s.keys[id].revoked then s
      else s.(keys := s.keys[id := s.keys[id].(revoked := true)], cache := Remove(s.cache, s.keys[id].hash))
    case RotateKey(id, newHash) =>
      if id !in s.keys || s.keys[id].revoked then s
      else s.(keys := s.keys[id := s.keys[id].(hash := newHash)], cache := Remove(s.cache, s.keys[id].hash))
    case CreateKey(id, row) =>
      if id in s.keys then s else s.(keys := s.keys[id := row])
  }

  ghost predicate CalmValid(s: Calm) {
    WellFormed(s.cache) && |s.cache.order| <= CACHE_MAX
  }

  lemma LookupKeepsValid(s: Calm, h: Hash, now: Time, reachable: bool)
    requires CalmValid(s)
    ensures CalmValid(Do(s, Lookup(h, now, reachable)))
  {
    ProbeKeeps(s.cache, h, now);
    if !Hit(s.cache, h, now) {
      InsertKeepsShape(AfterProbe(s.cache, h, now), h, Entry(now + CACHE_TTL, LookupAnswer(s, h, now, reachable)));
    }
  }

  lemma DoKeepsValid(s: Calm, op: Op)
    requires CalmValid(s)
    ensures CalmValid(Do(s, op))
  {
    match op
    case Lookup(h, now, reachable) => LookupKeepsValid(s, h, now, reachable);
    case RevokeKey(id) =>
      if id in s.keys { RemoveKeeps(s.cache, s.keys[id].hash); }
    case RotateKey(id, _) =>
      if id in s.keys { RemoveKeeps(s.cache, s.keys[id].hash); }
    case CreateKey(_, _) =>
  }

  ghost function DoAll(s: Calm, ops: seq<Op>): Calm
    decreases |ops|
  {
    if ops == [] then s else DoAll(Do(s, ops[0]), ops[1..])
  }

  // Whole calls are interleaved runs in which each call ends before the next begins.

  /** The steps of one whole call. */
  ghost function Serial(w: World, op: Op): seq<Event> {
    match op
    case Lookup(h, now, reachable) =>
      [Start(0, h, now), ProbeStep(0, now)]
      + (if Hit(w.cache, h, now) then [] else [ReadStep(0, reachable, now), InsertStep(0, now)])
    case RevokeKey(id) =>
      if id !in w.keys || w.keys[id].revoked then []
      else [WriteStep(w.keys[id := w.keys[id].(revoked := true)], w.clock), EvictStep(w.keys[id].hash, w.clock)]
    case RotateKey(id, newHash) =>
      if id !in w.keys || w.keys[id].revoked then []
      else [WriteStep(w.keys[id := w.keys[id].(hash := newHash)], w.clock), EvictStep(w.keys[id].hash, w.clock)]
    case CreateKey(id, row) =>
      if id in w.keys then [] else [WriteStep(w.keys[id := row], w.clock)]
  }

  /** The state as whole calls see it, between two of them. */
  ghost predicate Idle(w: World, s: Calm) {
    w.keys == s.keys && w.cache == s.cache && w.calls == map[]
  }

  lemma HitIsSerial(w: World, s: Calm, h: Hash, now: Time, reachable: bool)
    requires Idle(w, s) && w.clock <= now && Hit(s.cache, h, now)
    ensures var es := Serial(w, Lookup(h, now, reachable));
            && LegalRun(w, es) && Idle(Run(w, es), Do(s, Lookup(h, now, reachable)))
            && Run(w, es).clock == now
            && Run(w, es).answers == w.answers + [Answer(h, now, LookupAnswer(s, h, now, reachable))]
  {
    RunTwo(w, Start(0, h, now), ProbeStep(0, now));
    assert Serial(w, Lookup(h, now, reachable)) == [Start(0, h, now), ProbeStep(0, now)];
  }

  lemma ProbeMisses(w: World, h: Hash, now: Time) returns (w': World)
    requires w.calls == map[] && w.clock <= now && !Hit(w.cache, h, now)
    ensures LegalRun(w, [Start(0, h, now), ProbeStep(0, now)])
    ensures w' == Run(w, [Start(0, h, now), ProbeStep(0, now)])
    ensures w'.keys == w.keys && w'.calls == map[0 := Missed(h, now)] && w'.cache == Remove(w.cache, h)
    ensures w'.clock == now && w'.answers == w.answers
  {
    RunTwo(w, Start(0, h, now), ProbeStep(0, now));
    w' := Run(w, [Start(0, h, now), ProbeStep(0, now)]);
  }

  lemma FetchAndStore(w: World, h: Hash, now: Time, reachable: bool) returns (w': World)
    requires w.calls == map[0 := Missed(h, now)] && w.clock == now
    ensures LegalRun(w, [ReadStep(0, reachable, now), InsertStep(0, now)])
    ensures w' == Run(w, [ReadStep(0, reachable, now), InsertStep(0, now)])
    ensures var row := if reachable then DbLookup(w.keys, h, now) else None;
            && w'.keys == w.keys && w'.calls == map[] && w'.cache == Insert(w.cache, h, Entry(now + CACHE_TTL, row))
            && w'.clock == now && w'.answers == w.answers + [Answer(h, now, row)]
  {
    RunTwo(w, ReadStep(0, reachable, now), InsertStep(0, now));
    w' := Run(w, [ReadStep(0, reachable, now), InsertStep(0, now)]);
  }

  lemma MissIsSerial(w: World, s: Calm, h: Hash, now: Time, reachable: bool)
    requires Idle(w, s) && w.clock <= now && !Hit(s.cache, h, now)
    ensures var es := Serial(w, Lookup(h, now, reachable));
            && LegalRun(w, es) && Idle(Run(w, es), Do(s, Lookup(h, now, reachable)))
            && Run(w, es).clock == now
            && Run(w, es).answers == w.answers + [Answer(h, now, LookupAnswer(s, h, now, reachable))]
  {
    var w1 := ProbeMisses(w, h, now);
    var w2 := FetchAndStore(w1, h, now, reachable);
    RunSplits(w, [Start(0, h, now), ProbeStep(0, now)], [ReadStep(0, reachable, now), InsertStep(0, now)]);
  }

  /** A revoke has read the hash "h0"; a rotate replaces it by "h1" and evicts
      "h0"; a lookup of "h1" caches its row; the revoke writes and evicts "h0". */
  function RacingWriters(rotated: Keys, revoked: Keys): seq<Event> {
    [WriteStep(rotated, 1), EvictStep("h0", 1)] + [Start(0, "h1", 2), ProbeStep(0, 2)]
    + [ReadStep(0, true, 2), InsertStep(0, 2)] + [WriteStep(revoked, 3), EvictStep("h0", 3)]
  }

  /** What "h1" is cached with when the revoke writes and evicts "h0". */
  lemma RaceBeforeWrite(w: World, info: KeyInfo) returns (w': World)
    requires w == Initial(map["k" := KeyRow("h0", info, false, None)])
    ensures var rotated: Keys := map["k" := KeyRow("h1", info, false, None)];
            var es := [WriteStep(rotated, 1), EvictStep("h0", 1)] + [Start(0, "h1", 2), ProbeStep(0, 2)]
                      + [ReadStep(0, true, 2), InsertStep(0, 2)];
            LegalRun(w, es) && w' == Run(w, es)
    ensures w'.calls == map[] && w'.clock == 2
    ensures w'.cache == Cache(["h1"], map["h1" := Entry(2 + CACHE_TTL, Some(info))])
  {
    var rotated: Keys := map["k" := KeyRow("h1", info, false, None)];
    var rotate := [WriteStep(rotated, 1), EvictStep("h0", 1)];
    var probe, fetch := [Start(0, "h1", 2), ProbeStep(0, 2)], [ReadStep(0, true, 2), InsertStep(0, 2)];
    RunTwo(w, rotate[0], rotate[1]);
    var w1 := Run(w, rotate);
    assert Without([], "h0") == [];
    assert w1.cache == Cache([], map[]);
    var w2 := ProbeMisses(w1, "h1", 2);
    assert Without([], "h1") == [];
    assert w2.cache == Cache([], map[]) && Usable(w2.keys["k"], "h1", 2);
    w' := FetchAndStore(w2, "h1", 2, true);
    RunSplits(w, rotate, probe);
    RunSplits(w, rotate + probe, fetch);
  }

  /** The second condition can fail alone: no lookup is in flight, yet the secret
      "h1" of the revoked row is still accepted. */
  lemma RacingWritersLeaveSecret(info: KeyInfo)
    ensures var keys := map["k" := KeyRow("h0", info, false, None)];
            var es := RacingWriters(map["k" := KeyRow("h1", info, false, None)],
                                    map["k" := KeyRow("h1", info, true, None)]);
            && LegalRun(Initial(keys), es)
            && Run(Initial(keys), es).calls == map[] && Dead(Run(Initial(keys), es).keys, "h1")
            && !RefusedForever(Run(Initial(keys), es), "h1")
  {
    var w := Initial(map["k" := KeyRow("h0", info, false, None)]);
    var rotated: Keys := map["k" := KeyRow("h1", info, false, None)];
    var revoked: Keys := map["k" := KeyRow("h1", info, true, None)];
    var w1 := RaceBeforeWrite(w, info);
    var es := [WriteStep(rotated, 1), EvictStep("h0", 1)] + [Start(0, "h1", 2), ProbeStep(0, 2)]
              + [ReadStep(0, true, 2), InsertStep(0, 2)];
    var last := [WriteStep(revoked, 3), EvictStep("h0", 3)];
    RunTwo(w1, last[0], last[1]);
    RunSplits(w, es, last);
    var w' := Run(w1, last);
    assert "h0"[1] != "h1"[1];
    assert w'.clock == 3 && "h1" in w'.cache.entries;
    CachedOpens(w', "h1");
  }

  lemma CallIsSerial(w: World, s: Calm, op: Op)
    requires Idle(w, s) && (op.Lookup? ==> w.clock <= op.now)
    ensures var es := Serial(w, op);
            && LegalRun(w, es) && Idle(Run(w, es), Do(s, op))
            && Run(w, es).clock == (if op.Lookup? then op.now else w.clock)
            && Run(w, es).answers ==
               w.answers + (if op.Lookup? then [Answer(op.hash, op.now, LookupAnswer(s, op.hash, op.now, op.reachable))]
                            else [])
  {
    match op
    case Lookup(h, now, reachable) =>
      if Hit(s.cache, h, now) { HitIsSerial(w, s, h, now, reachable); } else { MissIsSerial(w, s, h, now, reachable); }
    case RevokeKey(_) =>
      var es := Serial(w, op);
      if es != [] { RunTwo(w, es[0], es[1]); }
    case RotateKey(_, _) =>
      var es := Serial(w, op);
      if es != [] { RunTwo(w, es[0], es[1]); }
    case CreateKey(_, _) =>
      var es := Serial(w, op);
      if es != [] { RunOne(w, es[0]); }
  }

  /** Lookups read the clock in order. */
  predicate InTime(ops: seq<Op>, from: Time)
    decreases |ops|
  {
    ops == [] || (
      && (ops[0].Lookup? ==> from <= ops[0].now)
      && InTime(ops[1..], if ops[0].Lookup? then ops[0].now else from))
  }

  /** Every run of whole calls is an interleaved run with the same table and the
      same cache. */
  lemma {:induction false} WholeCallsAreARun(w: World, s: Calm, ops: seq<Op>) returns (es: seq<Event>)
    requires Idle(w, s) && InTime(ops, w.clock)
    ensures LegalRun(w, es) && Idle(Run(w, es), DoAll(s, ops))
    decreases |ops|
  {
    if ops == [] {
      es := [];
    } else {
      CallIsSerial(w, s, ops[0]);
      var first := Serial(w, ops[0]);
      var rest := WholeCallsAreARun(Run(w, first), Do(s, ops[0]), ops[1..]);
      es := first + rest;
      RunSplits(w, first, rest);
    }
  }

  // ----- order of eviction ---------------------------------------------------------------

  /** One plus the position of the last use of h, 0 if never used. */
  function LastUse(uses: seq<Hash>, h: Hash): (r: nat)
    ensures r <= |uses|
    ensures r > 0 ==> uses[r - 1] == h
    ensures forall i :: r <= i < |uses| ==> uses[i] != h
  {
    if uses == [] then 0
    else if uses[|uses| - 1] == h then |uses|
    else LastUse(uses[..|uses| - 1], h)
  }

  /** The dictionary order is exactly the order of last use. */
  ghost predicate InUseOrder(order: seq<Hash>, uses: seq<Hash>) {
    forall i, j :: 0 <= i < j < |order| ==> LastUse(uses, order[i]) < LastUse(uses, order[j])
  }

  lemma LastUseAppend(uses: seq<Hash>, h: Hash, x: Hash)
    ensures LastUse(uses + [h], x) == if x == h then |uses| + 1 else LastUse(uses, x)
  {
    assert (uses + [h])[..|uses|] == uses;
  }

  lemma {:induction false} WithoutKeepsUseOrder(order: seq<Hash>, uses: seq<Hash>, h: Hash)
    requires InUseOrder(order, uses)
    ensures InUseOrder(Without(order, h), uses)
  {
    if order == [] {
    } else {
      assert InUseOrder(order[1..], uses) by {
        forall i, j | 0 <= i < j < |order| - 1
          ensures LastUse(uses, order[1..][i]) < LastUse(uses, order[1..][j])
        {
          assert order[1..][i] == order[i + 1] && order[1..][j] == order[j + 1];
        }
      }
      WithoutKeepsUseOrder(order[1..], uses, h);
      var rest := Without(order[1..], h);
      if order[0] != h {
        forall j | 0 <= j < |rest|
          ensures LastUse(uses, order[0]) < LastUse(uses, rest[j])
        {
          assert rest[j] in order[1..];
        }
      }
    }
  }

  /** Using h and appending it keeps the order. */
  lemma AppendUse(order: seq<Hash>, uses: seq<Hash>, h: Hash)
    requires InUseOrder(order, uses) && h !in order
    ensures InUseOrder(order + [h], uses + [h])
  {
    forall i, j | 0 <= i < j < |order| + 1
      ensures LastUse(uses + [h], (order + [h])[i]) < LastUse(uses + [h], (order + [h])[j])
    {
      LastUseAppend(uses, h, (order + [h])[i]);
      LastUseAppend(uses, h, (order + [h])[j]);
    }
  }

  lemma LookupKeepsUseOrder(s: Calm, h: Hash, now: Time, reachable: bool)
    requires CalmValid(s) && InUseOrder(s.cache.order, s.uses)
    ensures var s' := Do(s, Lookup(h, now, reachable)); InUseOrder(s'.cache.order, s'.uses)
  {
    var rest := Without(s.cache.order, h);
    WithoutKeepsUseOrder(s.cache.order, s.uses, h);
    AppendUse(rest, s.uses, h);
    if !Hit(s.cache, h, now) {
      var c := Put(Remove(s.cache, h), h, Entry(now + CACHE_TTL, LookupAnswer(s, h, now, reachable)));
      assert c.order == rest + [h];
      if |c.order| > CACHE_MAX {
        forall i, j | 0 <= i < j < |c.order[1..]|
          ensures LastUse(s.uses + [h], c.order[1..][i]) < LastUse(s.uses + [h], c.order[1..][j])
        {
          assert c.order[1..][i] == c.order[i + 1] && c.order[1..][j] == c.order[j + 1];
        }
      }
    }
  }

  lemma DoKeepsUseOrder(s: Calm, op: Op)
    requires CalmValid(s) && InUseOrder(s.cache.order, s.uses)
    ensures InUseOrder(Do(s, op).cache.order, Do(s, op).uses)
  {
    match op
    case Lookup(h, now, reachable) => LookupKeepsUseOrder(s, h, now, reachable);
    case RevokeKey(id) =>
      if id in s.keys { WithoutKeepsUseOrder(s.cache.order, s.uses, s.keys[id].hash); }
    case RotateKey(id, _) =>
      if id in s.keys { WithoutKeepsUseOrder(s.cache.order, s.uses, s.keys[id].hash); }
    case CreateKey(_, _) =>
  }

  /** In runs without overlap the dictionary order is last-use order in every
      reachable state, so what eviction drops is the least recently used key. */
  lemma {:induction false} CacheIsLru(s: Calm, ops: seq<Op>)
    requires CalmValid(s) && InUseOrder(s.cache.order, s.uses)
    ensures CalmValid(DoAll(s, ops)) && InUseOrder(DoAll(s, ops).cache.order, DoAll(s, ops).uses)
    decreases |ops|
  {
    if ops == [] {
    } else {
      DoKeepsValid(s, ops[0]);
      DoKeepsUseOrder(s, ops[0]);
      CacheIsLru(Do(s, ops[0]), ops[1..]);
    }
  }
}
