/** The bounded event log of engramia/analytics/collector.py against a log that
    keeps everything. */
module RoiLog {
  import opened Options

  const MAX_EVENTS: nat := 10_000

  datatype Kind = Learn | Recall
  datatype Tier = Duplicate | Adapt | Fresh

  datatype Event = Event(kind: Kind, ts: real, evalScore: Option<real>, similarity: Option<real>,
                         tier: Option<Tier>, patternKey: string, tenant: string, project: string)

  /** A stored item; what does not validate as an event is skipped on load. */
  datatype Raw = Good(event: Event) | Malformed

  datatype Loaded = Events(events: seq<Event>) | ScopeRequired

  datatype Query = Query(since: Option<real>, tenant: Option<string>, project: Option<string>)

  predicate Matches(q: Query, e: Event) {
    && (q.since.Some? ==> q.since.value <= e.ts)
    && (q.tenant.Some? && q.tenant.value != "*" ==> e.tenant == q.tenant.value)
    && (q.project.Some? && q.project.value != "*" ==> e.project == q.project.value)
  }

  function Select(raw: seq<Raw>, q: Query): seq<Event> {
    if raw == [] then [] else
      Select(raw[..|raw| - 1], q) + (match raw[|raw| - 1]
                                     case Malformed => []
                                     case Good(e) => if Matches(q, e) then [e] else [])
  }

  function LastN<T>(s: seq<T>, n: nat): seq<T> {
    if |s| <= n then s else s[|s| - n..]
  }

  /** `events` are the items of `raw` at the positions `at`, in order, and these are
      the positions of all events that q asks for. */
  ghost predicate ListedAt(raw: seq<Raw>, q: Query, events: seq<Event>, at: seq<nat>) {
    && |at| == |events|
    && (forall k, l :: 0 <= k < l < |at| ==> at[k] < at[l])
    && (forall k :: 0 <= k < |at| ==> at[k] < |raw| && raw[at[k]] == Good(events[k]))
    && (forall i: nat :: i in at <==> i < |raw| && AskedFor(raw[i], q))
  }

  predicate AskedFor(r: Raw, q: Query) {
    && r.Good?
    && (q.since.None? || r.event.ts >= q.since.value)
    && (q.tenant.None? || q.tenant.value == "*" || r.event.tenant == q.tenant.value)
    && (q.project.None? || q.project.value == "*" || r.event.project == q.project.value)
  }

  lemma {:induction false} SelectPositions(raw: seq<Raw>, q: Query) returns (at: seq<nat>)
    ensures ListedAt(raw, q, Select(raw, q), at)
  {
    if raw == [] {
      at := [];
    } else {
      var n := |raw| - 1;
      var front := SelectPositions(raw[..n], q);
      at := front;
      if AskedFor(raw[n], q) {
        at := front + [n];
        assert Select(raw, q) == Select(raw[..n], q) + [raw[n].event];
      } else {
        assert Select(raw, q) == Select(raw[..n], q);
      }
      forall i: nat
        ensures i in at <==> i < |raw| && AskedFor(raw[i], q)
      {
        assert i < n ==> raw[..n][i] == raw[i];
        assert i in front <==> i < n && AskedFor(raw[..n][i], q);
      }
    }
  }

  class RoiCollector {
    var stored: Option<seq<Raw>>   // absent, or not a list, reads as empty
    ghost var all: seq<Raw>        // every item ever stored

    ghost predicate Valid()
      reads this
    {
      LastN(LoadedRaw(), MAX_EVENTS) == LastN(all, MAX_EVENTS)
    }

    function LoadedRaw(): seq<Raw>
      reads this
    {
      if stored.Some? then stored.value else []
    }

    /** Starts on whatever the storage holds. */
    constructor (stored: Option<seq<Raw>>)
      ensures Valid() && this.stored == stored && all == LoadedRaw()
    {
      this.stored := stored;
      all := if stored.Some? then stored.value else [];
    }

    /** After an append the log is the last MAX_EVENTS of everything recorded. */
    method Append(e: Event)
      requires Valid()
      modifies this
      ensures Valid() && all == old(all) + [Good(e)]
      ensures LoadedRaw() == LastN(all, MAX_EVENTS)
      ensures LoadedRaw() == if |all| <= 10_000 then all else all[|all| - 10_000..]
    {
      var raw := LoadedRaw() + [Good(e)];
      AppendThenTruncate(LoadedRaw(), Good(e), MAX_EVENTS);
      AppendThenTruncate(all, Good(e), MAX_EVENTS);
      stored := Some(if |raw| > MAX_EVENTS then raw[|raw| - MAX_EVENTS..] else raw);
      all := all + [Good(e)];
    }

    /** Returns, in stored order, exactly the events since the asked time that
        belong to the asked tenant and project; "*" asks for all of them. */
    method LoadEvents(q: Query, adminOverride: bool) returns (r: Loaded)
      ensures r == if q.tenant.None? && !adminOverride then ScopeRequired else Events(Select(LoadedRaw(), q))
      ensures r.ScopeRequired? <==> q.tenant.None? && !adminOverride
      ensures r.Events? ==> exists at :: ListedAt(LoadedRaw(), q, r.events, at)
    {
      if q.tenant.None? && !adminOverride {
        return ScopeRequired;
      }
      var raw := LoadedRaw();
      var events := [];
      for i := 0 to |raw|
        invariant events == Select(raw[..i], q)
      {
        assert raw[..i + 1][..i] == raw[..i];
        if raw[i].Good? {
          var e := raw[i].event;
          if (q.since.None? || !(e.ts < q.since.value))
             && (q.tenant.None? || q.tenant.value == "*" || e.tenant == q.tenant.value)
             && (q.project.None? || q.project.value == "*" || e.project == q.project.value) {
            events := events + [e];
          }
        }
      }
      assert raw[..|raw|] == raw;
      ghost var at := SelectPositions(raw, q);
      return Events(events);
    }
  }

  /** Appending to the truncated log and truncating again is the same as
      truncating the full log. */
  lemma AppendThenTruncate<T>(all: seq<T>, x: T, n: nat)
    requires n > 0
    ensures LastN(LastN(all, n) + [x], n) == LastN(all + [x], n)
  {}

  lemma {:induction false} SelectSplits(a: seq<Raw>, b: seq<Raw>, q: Query)
    ensures Select(a + b, q) == Select(a, q) + Select(b, q)
  {
    if b == [] {
      assert a + b == a;
    } else {
      var n := |b| - 1;
      assert (a + b)[..|a| + n] == a + b[..n];
      SelectSplits(a, b[..n], q);
    }
  }

  lemma {:induction false} SelectsNothing(raw: seq<Raw>, q: Query)
    ensures Select(raw, q) == [] <==> forall i :: 0 <= i < |raw| && raw[i].Good? ==> !Matches(q, raw[i].event)
  {
    if raw == [] {
    } else {
      var n := |raw| - 1;
      SelectsNothing(raw[..n], q);
      assert forall i :: 0 <= i < n ==> raw[..n][i] == raw[i];
    }
  }

  /** Nothing is lost by a query exactly when no dropped event matches it. */
  lemma LoadIsCompleteIff(all: seq<Raw>, q: Query)
    ensures Select(LastN(all, MAX_EVENTS), q) == Select(all, q) <==>
            forall i :: 0 <= i < |all| - MAX_EVENTS && all[i].Good? ==> !Matches(q, all[i].event)
  {
    if |all| > MAX_EVENTS {
      var n := |all| - MAX_EVENTS;
      assert all == all[..n] + all[n..];
      SelectSplits(all[..n], all[n..], q);
      SelectsNothing(all[..n], q);
      assert forall i :: 0 <= i < n ==> all[..n][i] == all[i];
    }
  }

  /** The times of the events never decrease; malformed items may lie between. */
  ghost predicate Chronological(all: seq<Raw>) {
    forall i, j :: 0 <= i < j < |all| && all[i].Good? && all[j].Good? ==> all[i].event.ts <= all[j].event.ts
  }

  predicate Since(r: Raw, since: real) {
    r.Good? && since <= r.event.ts
  }

  /** The position of the first event since then, or the length. */
  function FirstSince(all: seq<Raw>, since: real): (r: nat)
    ensures r <= |all|
  {
    if all == [] || Since(all[0], since) then 0 else 1 + FirstSince(all[1..], since)
  }

  lemma {:induction false} FirstSinceSpec(all: seq<Raw>, since: real, i: nat)
    ensures i < FirstSince(all, since) ==> !Since(all[i], since)
    ensures FirstSince(all, since) < |all| ==> Since(all[FirstSince(all, since)], since)
  {
    if all == [] || Since(all[0], since) {
    } else {
      FirstSinceSpec(all[1..], since, if i > 0 then i - 1 else 0);
    }
  }

  function CountSince(all: seq<Raw>, since: real): nat {
    |Select(all, Query(Some(since), None, None))|
  }

  /** The malformed items stored after the first event since then. */
  function MalformedSince(all: seq<Raw>, since: real): nat {
    CountMalformed(all[FirstSince(all, since)..])
  }

  function CountMalformed(raw: seq<Raw>): nat {
    if raw == [] then 0 else CountMalformed(raw[..|raw| - 1]) + (if raw[|raw| - 1].Malformed? then 1 else 0)
  }

  lemma {:induction false} SelectsAllGood(raw: seq<Raw>, q: Query)
    requires forall i :: 0 <= i < |raw| && raw[i].Good? ==> Matches(q, raw[i].event)
    ensures |Select(raw, q)| + CountMalformed(raw) == |raw|
  {
    if raw == [] {
    } else {
      var n := |raw| - 1;
      assert forall i :: 0 <= i < n ==> raw[..n][i] == raw[i];
      SelectsAllGood(raw[..n], q);
    }
  }

  lemma NothingBefore(all: seq<Raw>, since: real)
    ensures Select(all[..FirstSince(all, since)], Query(Some(since), None, None)) == []
  {
    var early := all[..FirstSince(all, since)];
    forall i | 0 <= i < |early| && early[i].Good?
      ensures !Matches(Query(Some(since), None, None), early[i].event)
    {
      FirstSinceSpec(all, since, i);
    }
    SelectsNothing(early, Query(Some(since), None, None));
  }

  lemma EverythingAfter(all: seq<Raw>, since: real)
    requires Chronological(all)
    ensures var tail := all[FirstSince(all, since)..];
            |Select(tail, Query(Some(since), None, None))| + CountMalformed(tail) == |tail|
  {
    var n := FirstSince(all, since);
    var tail := all[n..];
    FirstSinceSpec(all, since, 0);
    forall i | 0 <= i < |tail| && tail[i].Good?
      ensures Matches(Query(Some(since), None, None), tail[i].event)
    {
      assert tail[i] == all[n + i];
    }
    SelectsAllGood(tail, Query(Some(since), None, None));
  }

  /** From the first event since a time on, a chronological log holds the selected
      events and the malformed items among them. */
  lemma SinceIsCounted(all: seq<Raw>, since: real)
    requires Chronological(all)
    ensures |all| - FirstSince(all, since) == CountSince(all, since) + MalformedSince(all, since)
  {
    var n := FirstSince(all, since);
    assert all == all[..n] + all[n..];
    SelectSplits(all[..n], all[n..], Query(Some(since), None, None));
    NothingBefore(all, since);
    EverythingAfter(all, since);
  }

  lemma {:induction false} NoMalformed(raw: seq<Raw>)
    requires forall i :: 0 <= i < |raw| ==> raw[i].Good?
    ensures CountMalformed(raw) == 0
  {
    if raw == [] {
    } else {
      NoMalformed(raw[..|raw| - 1]);
    }
  }

  /** With event times in order, loading everything since a time is exact if and
      only if at most MAX_EVENTS items, malformed ones after the first such event
      included, were recorded since then. */
  lemma RecentLoadIsExactIff(all: seq<Raw>, since: real)
    requires Chronological(all)
    ensures var q := Query(Some(since), None, None);
            Select(LastN(all, MAX_EVENTS), q) == Select(all, q) <==>
            CountSince(all, since) + MalformedSince(all, since) <= MAX_EVENTS
  {
    LoadIsCompleteIff(all, Query(Some(since), None, None));
    SinceIsCounted(all, since);
    var n := FirstSince(all, since);
    FirstSinceSpec(all, since, 0);
    forall i | 0 <= i < n
      ensures !Since(all[i], since)
    {
      FirstSinceSpec(all, since, i);
    }
  }

  /** A log without malformed items: the events alone decide. */
  lemma CleanLoadIsExactIff(all: seq<Raw>, since: real)
    requires Chronological(all) && forall i :: 0 <= i < |all| ==> all[i].Good?
    ensures var q := Query(Some(since), None, None);
            Select(LastN(all, MAX_EVENTS), q) == Select(all, q) <==> CountSince(all, since) <= MAX_EVENTS
  {
    RecentLoadIsExactIff(all, since);
    NoMalformed(all[FirstSince(all, since)..]);
  }

  /** ... and then a load restricted to a tenant or project is exact too. */
  lemma RecentScopedLoadIsExact(all: seq<Raw>, since: real, tenant: Option<string>, project: Option<string>)
    requires Chronological(all) && CountSince(all, since) + MalformedSince(all, since) <= MAX_EVENTS
    ensures var q := Query(Some(since), tenant, project);
            Select(LastN(all, MAX_EVENTS), q) == Select(all, q)
  {
    RecentLoadIsExactIff(all, since);
    LoadIsCompleteIff(all, Query(Some(since), None, None));
    LoadIsCompleteIff(all, Query(Some(since), tenant, project));
  }
}
