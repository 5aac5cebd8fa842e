/** Rollups of engramia/analytics/aggregator.py: one summary per tenant and
    project. Scores are exact reals, rounding to four places is half-up. */
module RoiRollup {
  import opened Options
  import opened RoiLog

  // ----- order statistics ------------------------------------------------------------

  predicate Sorted(s: seq<real>) {
    forall i, j :: 0 <= i < j < |s| ==> s[i] <= s[j]
  }

  function InsertSorted(x: real, s: seq<real>): seq<real>
    decreases |s|
  {
    if s == [] then [x]
    else if x <= s[0] then [x] + s
    else [s[0]] + InsertSorted(x, s[1..])
  }

  /** The built-in sort. */
  function Sort(s: seq<real>): seq<real>
    decreases |s|
  {
    if s == [] then [] else InsertSorted(s[0], Sort(s[1..]))
  }

  predicate AtLeast(s: seq<real>, v: real) {
    forall i :: 0 <= i < |s| ==> v <= s[i]
  }

  lemma SortedSplits(x: real, s: seq<real>)
    ensures Sorted([x] + s) <==> AtLeast(s, x) && Sorted(s)
  {
    var t := [x] + s;
    assert forall i :: 0 <= i < |s| ==> t[i + 1] == s[i];
    if Sorted(t) {
      forall i | 0 <= i < |s|
        ensures x <= s[i]
      {
        assert t[0] <= t[i + 1];
      }
      forall i, j | 0 <= i < j < |s|
        ensures s[i] <= s[j]
      {
        assert t[i + 1] <= t[j + 1];
      }
    }
  }

  lemma {:induction false} InsertKeepsElements(x: real, s: seq<real>)
    ensures multiset(InsertSorted(x, s)) == multiset(s) + multiset{x}
    decreases |s|
  {
    if s == [] {
    } else {
      assert s == [s[0]] + s[1..];
      InsertKeepsElements(x, s[1..]);
    }
  }

  lemma {:induction false} InsertKeepsLeast(x: real, s: seq<real>, v: real)
    requires AtLeast(s, v) && v <= x
    ensures AtLeast(InsertSorted(x, s), v)
    decreases |s|
  {
    if s == [] {
    } else {
      InsertKeepsLeast(x, s[1..], v);
    }
  }

  lemma {:induction false} InsertKeepsSorted(x: real, s: seq<real>)
    requires Sorted(s)
    ensures Sorted(InsertSorted(x, s))
    decreases |s|
  {
    if s == [] {
    } else {
      assert s == [s[0]] + s[1..];
      SortedSplits(s[0], s[1..]);
      if x <= s[0] {
        SortedSplits(x, s);
      } else {
        InsertKeepsSorted(x, s[1..]);
        InsertKeepsLeast(x, s[1..], s[0]);
        SortedSplits(s[0], InsertSorted(x, s[1..]));
      }
    }
  }

  lemma {:induction false} SortSpec(s: seq<real>)
    ensures Sorted(Sort(s)) && multiset(Sort(s)) == multiset(s) && |Sort(s)| == |s|
    decreases |s|
  {
    if s == [] {
    } else {
      assert s == [s[0]] + s[1..];
      SortSpec(s[1..]);
      InsertKeepsElements(s[0], Sort(s[1..]));
      InsertKeepsSorted(s[0], Sort(s[1..]));
    }
    assert |multiset(Sort(s))| == |Sort(s)| && |multiset(s)| == |s|;
  }

  /** The element at i, taken out. */
  function RemoveAt<T>(s: seq<T>, i: nat): seq<T>
    requires i < |s|
  {
    s[..i] + s[i + 1..]
  }

  lemma RemoveAtMultiset<T>(s: seq<T>, i: nat)
    requires i < |s|
    ensures multiset(RemoveAt(s, i)) == multiset(s) - multiset{s[i]}
  {
    assert s == s[..i] + [s[i]] + s[i + 1..];
  }

  lemma SameSize<T>(s: seq<T>, t: seq<T>)
    requires multiset(s) == multiset(t)
    ensures |s| == |t|
  {
    assert |multiset(s)| == |s| && |multiset(t)| == |t|;
  }

  /** Where an element of s is found in a rearrangement of s. */
  lemma FindIn<T>(s: seq<T>, t: seq<T>, k: nat) returns (i: nat)
    requires multiset(s) == multiset(t) && k < |s|
    ensures i < |t| && t[i] == s[k]
    ensures multiset(RemoveAt(s, k)) == multiset(RemoveAt(t, i))
  {
    assert s[k] in multiset(t);
    i :| 0 <= i < |t| && t[i] == s[k];
    RemoveAtMultiset(s, k);
    RemoveAtMultiset(t, i);
  }

  lemma HeadsAgree(s: seq<real>, t: seq<real>)
    requires Sorted(s) && Sorted(t) && multiset(s) == multiset(t) && s != [] && t != []
    ensures s[0] == t[0]
  {
    var i := FindIn(s, t, 0);
    var j := FindIn(t, s, 0);
    assert t[0] <= t[i] && s[0] <= s[j];
  }

  /** A multiset has one sorted listing. */
  lemma {:induction false} SortedIsUnique(s: seq<real>, t: seq<real>)
    requires Sorted(s) && Sorted(t) && multiset(s) == multiset(t)
    ensures s == t
    decreases |s|
  {
    SameSize(s, t);
    if s == [] {
    } else {
      HeadsAgree(s, t);
      assert s == [s[0]] + s[1..] && t == [t[0]] + t[1..];
      RemoveAtMultiset(s, 0);
      RemoveAtMultiset(t, 0);
      assert RemoveAt(s, 0) == s[1..] && RemoveAt(t, 0) == t[1..];
      SortedIsUnique(s[1..], t[1..]);
    }
  }

  function Round4(x: real): real {
    (x * 10000.0 + 0.5).Floor as real / 10000.0
  }

  function Median(s: seq<real>): real
    requires s != []
  {
    if |s| % 2 == 1 then s[|s| / 2] else (s[|s| / 2 - 1] + s[|s| / 2]) / 2.0
  }

  /** ceil(0.9 n), at least 1. */
  function Rank90(n: nat): (r: nat)
    requires n > 0
    ensures 1 <= r <= n && 10 * (r - 1) < 9 * n <= 10 * r
  {
    (9 * n + 9) / 10
  }

  function P90(s: seq<real>): real
    requires s != []
  {
    s[Rank90(|s|) - 1]
  }

  function CountUpTo(s: seq<real>, v: real): nat {
    if s == [] then 0 else CountUpTo(s[..|s| - 1], v) + (if s[|s| - 1] <= v then 1 else 0)
  }

  lemma {:induction false} CountUpToSorted(s: seq<real>, v: real, k: nat)
    requires Sorted(s) && k <= |s|
    requires forall i :: 0 <= i < k ==> s[i] <= v
    requires forall i :: k <= i < |s| ==> v < s[i]
    ensures CountUpTo(s, v) == k
  {
    if s == [] {
    } else {
      var n := |s| - 1;
      CountUpToSorted(s[..n], v, if k <= n then k else n);
    }
  }

  lemma {:induction false} Boundary(s: seq<real>, v: real) returns (k: nat)
    requires Sorted(s)
    ensures k <= |s| && CountUpTo(s, v) == k
    ensures forall i :: 0 <= i < |s| ==> (i < k <==> s[i] <= v)
  {
    k := 0;
    while k < |s| && s[k] <= v
      invariant k <= |s| && forall i :: 0 <= i < k ==> s[i] <= v
    {
      k := k + 1;
    }
    CountUpToSorted(s, v, k);
  }

  lemma RankedSample(s: seq<real>, w: real)
    requires Sorted(s) && s != []
    ensures w >= P90(s) ==> 10 * CountUpTo(s, w) >= 9 * |s|
    ensures w < P90(s) ==> 10 * CountUpTo(s, w) < 9 * |s|
  {
    var k := Boundary(s, w);
  }

  lemma MedianBelowP90(s: seq<real>)
    requires Sorted(s) && s != []
    ensures Median(s) <= P90(s)
  {
    var r, half := Rank90(|s|), |s| / 2;
    assert half <= r - 1;
    assert half < r - 1 ==> s[half] <= s[r - 1];
    assert half > 0 ==> s[half - 1] <= s[half];
  }

  /** p90 is the least sample with at least 90% of the samples at or below it,
      and the median never exceeds it. */
  lemma P90IsNearestRank(scores: seq<real>, w: real)
    requires scores != []
    ensures Sort(scores) != [] && P90(Sort(scores)) in scores
    ensures w >= P90(Sort(scores)) <==> 10 * CountUpTo(Sort(scores), w) >= 9 * |scores|
    ensures Median(Sort(scores)) <= P90(Sort(scores))
  {
    SortSpec(scores);
    var s := Sort(scores);
    RankedSample(s, w);
    MedianBelowP90(s);
    assert s[Rank90(|s|) - 1] in multiset(s);
  }

  // ----- one scope ---------------------------------------------------------------------

  /** The values that f picks out of the events, in order. */
  function Extract(events: seq<Event>, f: Event -> Option<real>): seq<real> {
    if events == [] then [] else
      Extract(events[..|events| - 1], f) + (match f(events[|events| - 1]) case None => [] case Some(x) => [x])
  }

  function LearnScore(e: Event): Option<real> {
    if e.kind.Learn? then e.evalScore else None
  }

  function RecallSimilarity(e: Event): Option<real> {
    if e.kind.Recall? then e.similarity else None
  }

  function IsLearn(e: Event): Option<real> {
    if e.kind.Learn? then Some(1.0) else None
  }

  function IsRecall(e: Event): Option<real> {
    if e.kind.Recall? then Some(1.0) else None
  }

  function IsTier(t: Tier): Event -> Option<real> {
    (e: Event) => if e.kind.Recall? && e.tier == Some(t) then Some(1.0) else None
  }

  function Sum(s: seq<real>): real {
    if s == [] then 0.0 else Sum(s[..|s| - 1]) + s[|s| - 1]
  }

  function Mean(s: seq<real>): real {
    if s == [] then 0.0 else Sum(s) / |s| as real
  }

  datatype RecallOutcome = RecallOutcome(total: nat, duplicate: nat, adapt: nat, freshMisses: nat,
                                         reuseRate: real, avgSimilarity: real)
  datatype LearnSummary = LearnSummary(total: nat, avgScore: real, p50: real, p90: real)
  datatype Rollup = Rollup(recall: RecallOutcome, learn: LearnSummary, roi: real)

  function ReuseRate(hits: nat, total: nat): real {
    if total > 0 then hits as real / total as real else 0.0
  }

  function UnclampedRoi(reuseRate: real, avgScore: real): real {
    Round4(0.6 * reuseRate * 10.0 + 0.4 * avgScore)
  }

  function Clamp(x: real): real {
    if x < 0.0 then 0.0 else if x > 10.0 then 10.0 else x
  }

  function RecallSummary(events: seq<Event>): RecallOutcome {
    var total := |Extract(events, IsRecall)|;
    var duplicate, adapt := |Extract(events, IsTier(Duplicate))|, |Extract(events, IsTier(Adapt))|;
    RecallOutcome(total, duplicate, adapt, |Extract(events, IsTier(Fresh))|,
                  Round4(ReuseRate(duplicate + adapt, total)),
                  Round4(Mean(Extract(events, RecallSimilarity))))
  }

  function Summarise(total: nat, scores: seq<real>): LearnSummary {
    SortSpec(scores);
    LearnSummary(total, Round4(Mean(scores)),
                 if scores == [] then 0.0 else Round4(Median(Sort(scores))),
                 if scores == [] then 0.0 else Round4(P90(Sort(scores))))
  }

  function ComputeRollup(events: seq<Event>): Rollup {
    var recall := RecallSummary(events);
    var learn := Summarise(|Extract(events, IsLearn)|, Extract(events, LearnScore));
    Rollup(recall, learn, Clamp(UnclampedRoi(recall.reuseRate, learn.avgScore)))
  }

  /** What a rollup publishes: its p50 never exceeds its p90, and rounding moves
      the p90 by no more than half a unit of the fourth decimal. */
  lemma PublishedPercentiles(events: seq<Event>)
    ensures var scores, learn := Extract(events, LearnScore), ComputeRollup(events).learn;
            && learn.p50 <= learn.p90
            && (scores == [] ==> learn.p50 == 0.0 == learn.p90)
            && (scores != [] ==> Sort(scores) != [] && -0.00005 <= P90(Sort(scores)) - learn.p90 <= 0.00005)
  {
    var scores := Extract(events, LearnScore);
    if scores != [] {
      P90IsNearestRank(scores, 0.0);
      var s := Sort(scores);
      RoundMonotone(Median(s), P90(s));
      RoundIsNear(P90(s));
    }
  }

  lemma RoundIsNear(x: real)
    ensures -0.00005 <= x - Round4(x) <= 0.00005
    ensures Round4(x) * 10000.0 == (Round4(x) * 10000.0).Floor as real
  {
    var n := (x * 10000.0 + 0.5).Floor;
    var k := n as real;
    assert k <= x * 10000.0 + 0.5 < k + 1.0;
    assert Round4(x) * 10000.0 == n as real;
  }

  // ----- what the published numbers mean ----------------------------------------------------

  /** The values at the positions `at`, in order, are all that f picks. */
  ghost predicate PickedAt(events: seq<Event>, f: Event -> Option<real>, xs: seq<real>, at: seq<nat>) {
    && |at| == |xs|
    && (forall k, l :: 0 <= k < l < |at| ==> at[k] < at[l])
    && (forall k :: 0 <= k < |at| ==> at[k] < |events| && f(events[at[k]]) == Some(xs[k]))
    && (forall i: nat :: i in at <==> i < |events| && f(events[i]).Some?)
  }

  lemma PickOneMore(front: seq<Event>, e: Event, f: Event -> Option<real>, xs: seq<real>, at: seq<nat>)
    requires PickedAt(front, f, xs, at)
    ensures f(e).None? ==> PickedAt(front + [e], f, xs, at)
    ensures f(e).Some? ==> PickedAt(front + [e], f, xs + [f(e).value], at + [|front|])
  {
    var n, events := |front|, front + [e];
    assert forall i :: 0 <= i < n ==> events[i] == front[i];
    assert events[n] == e;
    assert forall i: nat :: i in at + [n] <==> i in at || i == n;
  }

  lemma ExtractAppends(front: seq<Event>, e: Event, f: Event -> Option<real>)
    ensures Extract(front + [e], f) == Extract(front, f) + (if f(e).Some? then [f(e).value] else [])
  {
    assert (front + [e])[..|front|] == front;
  }

  lemma {:induction false} ExtractPositions(events: seq<Event>, f: Event -> Option<real>) returns (at: seq<nat>)
    ensures PickedAt(events, f, Extract(events, f), at)
  {
    if events == [] {
      at := [];
    } else {
      var front, e := events[..|events| - 1], events[|events| - 1];
      at := ExtractPositions(front, f);
      at := PickNext(front, e, f, at);
      assert events == front + [e];
    }
  }

  lemma PickNext(front: seq<Event>, e: Event, f: Event -> Option<real>, at: seq<nat>) returns (at': seq<nat>)
    requires PickedAt(front, f, Extract(front, f), at)
    ensures PickedAt(front + [e], f, Extract(front + [e], f), at')
  {
    ExtractAppends(front, e, f);
    PickOneMore(front, e, f, Extract(front, f), at);
    at' := if f(e).Some? then at + [|front|] else at;
  }

  /** The averaged and ranked scores are the recorded eval scores of the learn
      events, in order. */
  lemma ScoresAre(events: seq<Event>) returns (at: seq<nat>)
    ensures var scores := Extract(events, LearnScore);
            && |at| == |scores|
            && (forall k, l :: 0 <= k < l < |at| ==> at[k] < at[l])
            && (forall k :: 0 <= k < |at| ==> at[k] < |events| && events[at[k]].evalScore == Some(scores[k]))
            && (forall i: nat :: i in at <==> i < |events| && events[i].kind == Learn && events[i].evalScore.Some?)
  {
    at := ExtractPositions(events, LearnScore);
    assert forall k :: 0 <= k < |at| ==> LearnScore(events[at[k]]) == Some(Extract(events, LearnScore)[k]);
  }

  /** The averaged similarities are those of the recall events, in order. */
  lemma SimilaritiesAre(events: seq<Event>) returns (at: seq<nat>)
    ensures var sims := Extract(events, RecallSimilarity);
            && |at| == |sims|
            && (forall k, l :: 0 <= k < l < |at| ==> at[k] < at[l])
            && (forall k :: 0 <= k < |at| ==> at[k] < |events| && events[at[k]].similarity == Some(sims[k]))
            && (forall i: nat :: i in at <==> i < |events| && events[i].kind == Recall && events[i].similarity.Some?)
  {
    at := ExtractPositions(events, RecallSimilarity);
    assert forall k :: 0 <= k < |at| ==> RecallSimilarity(events[at[k]]) == Some(Extract(events, RecallSimilarity)[k]);
  }

  function PicksAt(events: seq<Event>, f: Event -> Option<real>): set<nat> {
    set i: nat | i < |events| && f(events[i]).Some?
  }

  lemma {:induction false} ExtractCounts(events: seq<Event>, f: Event -> Option<real>)
    ensures |Extract(events, f)| == |PicksAt(events, f)|
  {
    if events == [] {
      assert PicksAt(events, f) == {};
    } else {
      var n := |events| - 1;
      ExtractCounts(events[..n], f);
      if f(events[n]).Some? {
        assert PicksAt(events, f) == PicksAt(events[..n], f) + {n};
      } else {
        assert PicksAt(events, f) == PicksAt(events[..n], f);
      }
    }
  }

  function OfKind(events: seq<Event>, k: Kind): set<nat> {
    set i: nat | i < |events| && events[i].kind == k
  }

  function OfTier(events: seq<Event>, t: Tier): set<nat> {
    set i: nat | i < |events| && events[i].kind == Recall && events[i].tier == Some(t)
  }

  /** Every published count is the number of events it names. */
  lemma CountsMean(events: seq<Event>)
    ensures var r := ComputeRollup(events);
            && r.learn.total == |OfKind(events, Learn)| && r.recall.total == |OfKind(events, Recall)|
            && r.recall.duplicate == |OfTier(events, Duplicate)|
            && r.recall.adapt == |OfTier(events, Adapt)|
            && r.recall.freshMisses == |OfTier(events, Fresh)|
  {
    KindCounts(events);
    TierCounts(events, Duplicate);
    TierCounts(events, Adapt);
    TierCounts(events, Fresh);
  }

  lemma KindCounts(events: seq<Event>)
    ensures |Extract(events, IsLearn)| == |OfKind(events, Learn)|
    ensures |Extract(events, IsRecall)| == |OfKind(events, Recall)|
  {
    ExtractCounts(events, IsLearn);
    ExtractCounts(events, IsRecall);
    assert PicksAt(events, IsLearn) == OfKind(events, Learn);
    assert PicksAt(events, IsRecall) == OfKind(events, Recall);
  }

  lemma TierCounts(events: seq<Event>, t: Tier)
    ensures |Extract(events, IsTier(t))| == |OfTier(events, t)|
  {
    ExtractCounts(events, IsTier(t));
    assert PicksAt(events, IsTier(t)) == OfTier(events, t);
  }

  /** x is rounded to the nearest of the four-place numbers. */
  predicate Near(published: real, x: real) {
    -0.00005 <= x - published <= 0.00005
  }

  lemma MeanTimesSize(s: seq<real>)
    requires s != []
    ensures Mean(s) * |s| as real == Sum(s)
  {}

  lemma SumOf(a: seq<real>, x: real)
    ensures Sum([]) == 0.0 && Sum([x]) == x && Sum(a + [x]) == Sum(a) + x
  {
    assert [x][..0] == [];
    assert (a + [x])[..|a|] == a;
  }

  /** 0 without samples, otherwise near the number whose multiple by the number of
      samples is their sum. */
  ghost predicate NearMeanOf(published: real, s: seq<real>) {
    if s == [] then published == 0.0
    else exists mean: real :: Near(published, mean) && mean * |s| as real == Sum(s)
  }

  lemma MeanIsNear(s: seq<real>)
    ensures NearMeanOf(Round4(Mean(s)), s)
  {
    RoundFixes();
    RoundIsNear(Mean(s));
    if s != [] {
      MeanTimesSize(s);
      assert Near(Round4(Mean(s)), Mean(s));
    }
  }

  /** The published average score is near the mean of the scores. */
  lemma AverageScoreMeans(total: nat, scores: seq<real>)
    ensures NearMeanOf(Summarise(total, scores).avgScore, scores)
  {
    MeanIsNear(scores);
  }

  lemma AverageSimilarityMeans(events: seq<Event>)
    ensures NearMeanOf(RecallSummary(events).avgSimilarity, Extract(events, RecallSimilarity))
  {
    MeanIsNear(Extract(events, RecallSimilarity));
  }

  ghost predicate NearShare(published: real, hits: nat, total: nat) {
    if total == 0 then published == 0.0
    else exists share: real :: Near(published, share) && share * total as real == hits as real
  }

  lemma ShareIsNear(hits: nat, total: nat)
    ensures NearShare(Round4(ReuseRate(hits, total)), hits, total)
  {
    RoundFixes();
    RoundIsNear(ReuseRate(hits, total));
    if total > 0 {
      var q := ReuseRate(hits, total);
      assert q * total as real == hits as real;
      assert Near(Round4(q), q);
    }
  }

  /** The published reuse rate is near the share of recalls that hit a duplicate or
      an adaptable pattern, 0 without recalls. */
  lemma ReuseMeans(events: seq<Event>)
    ensures var r := RecallSummary(events); NearShare(r.reuseRate, r.duplicate + r.adapt, r.total)
  {
    ShareIsNear(|Extract(events, IsTier(Duplicate))| + |Extract(events, IsTier(Adapt))|, |Extract(events, IsRecall)|);
  }

  lemma MedianIsMiddle(s: seq<real>)
    requires s != []
    ensures 2.0 * Median(s) == s[(|s| - 1) / 2] + s[|s| / 2]
  {}

  /** The published p50 is near the middle score, or the mean of the two middle
      ones. */
  lemma MedianMeans(total: nat, scores: seq<real>)
    ensures var s, p50 := Sort(scores), Summarise(total, scores).p50;
            && |s| == |scores|
            && (s != [] ==> -0.0001 <= s[(|s| - 1) / 2] + s[|s| / 2] - 2.0 * p50 <= 0.0001)
  {
    SortSpec(scores);
    if scores != [] {
      MedianIsMiddle(Sort(scores));
      RoundIsNear(Median(Sort(scores)));
    }
  }

  /** What a rollup is made of. */
  lemma RollupParts(events: seq<Event>)
    ensures ComputeRollup(events).recall == RecallSummary(events)
    ensures ComputeRollup(events).learn == Summarise(|OfKind(events, Learn)|, Extract(events, LearnScore))
  {
    KindCounts(events);
  }

  /** The published composite weighs the reuse rate, scaled to ten, with 0.6 and
      the average score with 0.4; valid scores keep it within bounds. */
  lemma CompositeMeans(events: seq<Event>)
    ensures var r := ComputeRollup(events);
            var weighed := 6.0 * r.recall.reuseRate + 0.4 * r.learn.avgScore;
            && (ScoresInRange(events) ==> Near(r.roi, weighed))
            && (weighed >= 10.0 ==> r.roi == 10.0) && (weighed <= 0.0 ==> r.roi == 0.0)
  {
    ClampIsIdle(events);
    var r := ComputeRollup(events);
    var weighed := 0.6 * r.recall.reuseRate * 10.0 + 0.4 * r.learn.avgScore;
    RoundIsNear(weighed);
    RoundFixes();
    if weighed >= 10.0 {
      RoundMonotone(10.0, weighed);
    }
    if weighed <= 0.0 {
      RoundMonotone(weighed, 0.0);
    }
  }

  // ----- order of the events does not matter ------------------------------------------------

  lemma {:induction false} ExtractSplits(a: seq<Event>, b: seq<Event>, f: Event -> Option<real>)
    ensures Extract(a + b, f) == Extract(a, f) + Extract(b, f)
  {
    if b == [] {
      assert a + b == a;
    } else {
      var n := |b| - 1;
      assert (a + b)[..|a| + n] == a + b[..n];
      ExtractSplits(a, b[..n], f);
    }
  }

  lemma ExtractWithout(t: seq<Event>, r: seq<Event>, a: seq<Event>, x: Event, b: seq<Event>, f: Event -> Option<real>)
    requires t == a + [x] + b && r == a + b
    ensures multiset(Extract(t, f)) == multiset(Extract(r, f)) + multiset(Extract([x], f))
  {
    ExtractSplits(a + [x], b, f);
    ExtractSplits(a, [x], f);
    ExtractSplits(a, b, f);
  }

  lemma Parts<T>(t: seq<T>, i: nat) returns (a: seq<T>, x: T, b: seq<T>)
    requires i < |t|
    ensures t == a + [x] + b && RemoveAt(t, i) == a + b && x == t[i]
  {
    a, x, b := t[..i], t[i], t[i + 1..];
  }

  lemma ExtractAt(t: seq<Event>, i: nat, f: Event -> Option<real>)
    requires i < |t|
    ensures multiset(Extract(t, f)) == multiset(Extract(RemoveAt(t, i), f)) + multiset(Extract([t[i]], f))
  {
    var a, x, b := Parts(t, i);
    ExtractWithout(t, RemoveAt(t, i), a, x, b, f);
  }

  /** Rearranged events yield the same values, rearranged. */
  lemma {:induction false} ExtractPermutes(s: seq<Event>, t: seq<Event>, f: Event -> Option<real>)
    requires multiset(s) == multiset(t)
    ensures multiset(Extract(s, f)) == multiset(Extract(t, f))
    decreases |s|
  {
    SameSize(s, t);
    if s == [] {
    } else {
      var i := FindIn(s, t, 0);
      ExtractPermutes(RemoveAt(s, 0), RemoveAt(t, i), f);
      ExtractAt(s, 0, f);
      ExtractAt(t, i, f);
    }
  }

  lemma {:induction false} SumSplits(a: seq<real>, b: seq<real>)
    ensures Sum(a + b) == Sum(a) + Sum(b)
  {
    if b == [] {
      assert a + b == a;
    } else {
      var n := |b| - 1;
      assert (a + b)[..|a| + n] == a + b[..n];
      SumSplits(a, b[..n]);
    }
  }

  lemma SumWithout(t: seq<real>, r: seq<real>, a: seq<real>, x: real, b: seq<real>)
    requires t == a + [x] + b && r == a + b
    ensures Sum(t) == Sum(r) + x
  {
    SumSplits(a + [x], b);
    SumSplits(a, [x]);
    SumSplits(a, b);
  }

  lemma SumAt(t: seq<real>, i: nat)
    requires i < |t|
    ensures Sum(t) == Sum(RemoveAt(t, i)) + t[i]
  {
    var a, x, b := Parts(t, i);
    SumWithout(t, RemoveAt(t, i), a, x, b);
  }

  lemma {:induction false} SumPermutes(s: seq<real>, t: seq<real>)
    requires multiset(s) == multiset(t)
    ensures Sum(s) == Sum(t)
    decreases |s|
  {
    SameSize(s, t);
    if s == [] {
    } else {
      var i := FindIn(s, t, 0);
      SumPermutes(RemoveAt(s, 0), RemoveAt(t, i));
      SumAt(s, 0);
      SumAt(t, i);
    }
  }

  lemma ExtractFacts(s: seq<Event>, t: seq<Event>, f: Event -> Option<real>)
    requires multiset(s) == multiset(t)
    ensures |Extract(s, f)| == |Extract(t, f)| && Mean(Extract(s, f)) == Mean(Extract(t, f))
    ensures Sort(Extract(s, f)) == Sort(Extract(t, f))
  {
    var a, b := Extract(s, f), Extract(t, f);
    ExtractPermutes(s, t, f);
    SameSize(a, b);
    SumPermutes(a, b);
    SortSpec(a);
    SortSpec(b);
    SortedIsUnique(Sort(a), Sort(b));
  }

  lemma SizeIsOrderFree(s: seq<Event>, t: seq<Event>, f: Event -> Option<real>)
    requires multiset(s) == multiset(t)
    ensures |Extract(s, f)| == |Extract(t, f)|
  {
    ExtractPermutes(s, t, f);
    SameSize(Extract(s, f), Extract(t, f));
  }

  lemma MeanIsOrderFree(s: seq<Event>, t: seq<Event>, f: Event -> Option<real>)
    requires multiset(s) == multiset(t)
    ensures Mean(Extract(s, f)) == Mean(Extract(t, f))
  {
    ExtractFacts(s, t, f);
  }

  lemma RecallIsOrderFree(s: seq<Event>, t: seq<Event>)
    requires multiset(s) == multiset(t)
    ensures RecallSummary(s) == RecallSummary(t)
  {
    SizeIsOrderFree(s, t, IsRecall);
    SizeIsOrderFree(s, t, IsTier(Duplicate));
    SizeIsOrderFree(s, t, IsTier(Adapt));
    SizeIsOrderFree(s, t, IsTier(Fresh));
    MeanIsOrderFree(s, t, RecallSimilarity);
  }

  /** A rollup depends on which events there are, not on their order. */
  lemma RollupIsOrderFree(s: seq<Event>, t: seq<Event>)
    requires multiset(s) == multiset(t)
    ensures ComputeRollup(s) == ComputeRollup(t)
  {
    RecallIsOrderFree(s, t);
    ExtractFacts(s, t, IsLearn);
    ExtractFacts(s, t, LearnScore);
    var a, b := Extract(s, LearnScore), Extract(t, LearnScore);
    assert a == [] <==> b == [];
  }

  // ----- counts and bounds ----------------------------------------------------------------------

  /** Every event is a learn or a recall. */
  lemma {:induction false} KindsAddUp(events: seq<Event>)
    ensures |Extract(events, IsLearn)| + |Extract(events, IsRecall)| == |events|
  {
    if events == [] {
    } else {
      KindsAddUp(events[..|events| - 1]);
    }
  }

  predicate AllTiered(events: seq<Event>) {
    forall i :: 0 <= i < |events| && events[i].kind.Recall? ==> events[i].tier.Some?
  }

  lemma AllTieredSplits(front: seq<Event>, e: Event)
    ensures AllTiered(front + [e]) <==> AllTiered(front) && (e.kind.Recall? ==> e.tier.Some?)
  {
    var all := front + [e];
    assert all[|front|] == e;
    assert forall i :: 0 <= i < |front| ==> all[i] == front[i];
  }

  lemma ExtractOne(front: seq<Event>, e: Event, f: Event -> Option<real>)
    ensures |Extract(front + [e], f)| == |Extract(front, f)| + (if f(e).Some? then 1 else 0)
  {
    assert (front + [e])[..|front|] == front;
  }

  function TierHits(events: seq<Event>): nat {
    |Extract(events, IsTier(Duplicate))| + |Extract(events, IsTier(Adapt))| + |Extract(events, IsTier(Fresh))|
  }

  /** Every recall is at most one kind of hit, and exactly one when it carries
      a tier. */
  lemma {:induction false} TiersAddUp(events: seq<Event>)
    ensures TierHits(events) <= |Extract(events, IsRecall)|
    ensures TierHits(events) == |Extract(events, IsRecall)| <==> AllTiered(events)
  {
    if events == [] {
    } else {
      var front, e := events[..|events| - 1], events[|events| - 1];
      assert events == front + [e];
      TiersAddUp(front);
      AllTieredSplits(front, e);
      ExtractOne(front, e, IsTier(Duplicate));
      ExtractOne(front, e, IsTier(Adapt));
      ExtractOne(front, e, IsTier(Fresh));
      ExtractOne(front, e, IsRecall);
      assert e.tier in {None, Some(Duplicate), Some(Adapt), Some(Fresh)} by {
        match e.tier
        case None =>
        case Some(t) => match t { case Duplicate => case Adapt => case Fresh => }
      }
    }
  }

  /** Learn and recall totals of a rollup add up to its events; every recall is
      at most one kind of hit, and exactly one when it carries a tier. */
  lemma CountsAddUp(events: seq<Event>)
    ensures var r := ComputeRollup(events);
            && r.learn.total + r.recall.total == |events|
            && r.recall.duplicate + r.recall.adapt + r.recall.freshMisses <= r.recall.total
            && (r.recall.duplicate + r.recall.adapt + r.recall.freshMisses == r.recall.total <==> AllTiered(events))
  {
    KindsAddUp(events);
    TiersAddUp(events);
  }

  lemma RoundMonotone(x: real, y: real)
    requires x <= y
    ensures Round4(x) <= Round4(y)
  {
    assert (x * 10000.0 + 0.5).Floor <= (y * 10000.0 + 0.5).Floor;
  }

  lemma RoundFixes()
    ensures Round4(0.0) == 0.0 && Round4(1.0) == 1.0 && Round4(10.0) == 10.0
  {
    assert (0.5).Floor == 0 && (10000.5).Floor == 10000 && (100000.5).Floor == 100000;
  }

  lemma RoundWithin(x: real, hi: real)
    requires 0.0 <= x <= hi && (hi == 1.0 || hi == 10.0)
    ensures 0.0 <= Round4(x) <= hi
  {
    RoundFixes();
    RoundMonotone(0.0, x);
    RoundMonotone(x, hi);
  }

  lemma {:induction false} SumWithin(s: seq<real>)
    requires forall i :: 0 <= i < |s| ==> 0.0 <= s[i] <= 10.0
    ensures 0.0 <= Sum(s) <= 10.0 * |s| as real
  {
    if s == [] {
    } else {
      SumWithin(s[..|s| - 1]);
    }
  }

  lemma QuotientWithin(x: real, n: real, hi: real)
    requires 0.0 <= x <= hi * n && 0.0 < n
    ensures 0.0 <= x / n <= hi
  {
    var q := x / n;
    assert q * n == x;
    if q > hi {
      TimesMonotone(hi, q, n);
      assert false;
    }
    if q < 0.0 {
      TimesMonotone(q, 0.0, n);
      assert false;
    }
  }

  lemma TimesMonotone(a: real, b: real, n: real)
    requires a < b && 0.0 < n
    ensures a * n < b * n
  {}

  lemma MeanWithin(s: seq<real>)
    requires forall i :: 0 <= i < |s| ==> 0.0 <= s[i] <= 10.0
    ensures 0.0 <= Mean(s) <= 10.0
  {
    if s != [] {
      SumWithin(s);
      QuotientWithin(Sum(s), |s| as real, 10.0);
    }
  }

  lemma ReuseWithin(hits: nat, total: nat)
    requires hits <= total
    ensures 0.0 <= ReuseRate(hits, total) <= 1.0
  {
    if total > 0 {
      QuotientWithin(hits as real, total as real, 1.0);
    }
  }

  /** The scores that `learn` accepts. */
  predicate ScoresInRange(events: seq<Event>) {
    forall i :: 0 <= i < |events| && LearnScore(events[i]).Some? ==> 0.0 <= LearnScore(events[i]).value <= 10.0
  }

  lemma {:induction false} ExtractInRange(events: seq<Event>)
    requires ScoresInRange(events)
    ensures forall i :: 0 <= i < |Extract(events, LearnScore)| ==> 0.0 <= Extract(events, LearnScore)[i] <= 10.0
  {
    if events == [] {
    } else {
      var n := |events| - 1;
      assert forall i :: 0 <= i < n ==> events[..n][i] == events[i];
      ExtractInRange(events[..n]);
    }
  }

  lemma RoiWithin(reuseRate: real, avgScore: real)
    requires 0.0 <= reuseRate <= 1.0 && 0.0 <= avgScore <= 10.0
    ensures 0.0 <= UnclampedRoi(reuseRate, avgScore) <= 10.0
  {
    RoundWithin(0.6 * reuseRate * 10.0 + 0.4 * avgScore, 10.0);
  }

  lemma ReuseRateWithin(events: seq<Event>)
    ensures 0.0 <= RecallSummary(events).reuseRate <= 1.0
  {
    TiersAddUp(events);
    var hits := |Extract(events, IsTier(Duplicate))| + |Extract(events, IsTier(Adapt))|;
    ReuseWithin(hits, |Extract(events, IsRecall)|);
    RoundWithin(ReuseRate(hits, |Extract(events, IsRecall)|), 1.0);
  }

  /** With valid scores the composite is in [0, 10] before it is clamped; with
      any scores the stored value is. */
  lemma ClampIsIdle(events: seq<Event>)
    ensures 0.0 <= ComputeRollup(events).roi <= 10.0
    ensures ScoresInRange(events) ==>
              ComputeRollup(events).roi ==
              UnclampedRoi(ComputeRollup(events).recall.reuseRate, ComputeRollup(events).learn.avgScore)
  {
    if ScoresInRange(events) {
      ExtractInRange(events);
      MeanWithin(Extract(events, LearnScore));
      RoundWithin(Mean(Extract(events, LearnScore)), 10.0);
      ReuseRateWithin(events);
      RoiWithin(RecallSummary(events).reuseRate, Round4(Mean(Extract(events, LearnScore))));
    }
  }

  // ----- grouping by scope --------------------------------------------------------------------------

  type Scope = (string, string)

  function ScopeOf(e: Event): Scope {
    (e.tenant, e.project)
  }

  /** The events of one scope, in order. */
  function Scoped(events: seq<Event>, sc: Scope): seq<Event> {
    if events == [] then [] else
      Scoped(events[..|events| - 1], sc)
      + (if ScopeOf(events[|events| - 1]) == sc then [events[|events| - 1]] else [])
  }

  /** The scopes in order of first appearance. */
  function Scopes(events: seq<Event>): seq<Scope> {
    if events == [] then [] else
      var front := Scopes(events[..|events| - 1]);
      var sc := ScopeOf(events[|events| - 1]);
      if sc in front then front else front + [sc]
  }

  ghost predicate Distinct(s: seq<Scope>) {
    forall i, j :: 0 <= i < j < |s| ==> s[i] != s[j]
  }

  lemma {:induction false} ScopesDistinct(events: seq<Event>)
    ensures Distinct(Scopes(events))
  {
    if events == [] {
    } else {
      ScopesDistinct(events[..|events| - 1]);
    }
  }

  /** A scope has a rollup exactly when it has an event. */
  lemma {:induction false} ScopesMember(events: seq<Event>, sc: Scope)
    ensures sc in Scopes(events) <==> Scoped(events, sc) != []
  {
    if events == [] {
    } else {
      ScopesMember(events[..|events| - 1], sc);
    }
  }

  /** Scopes are listed in the order of their first events: an event of the earlier
      one precedes all events of the later one. */
  lemma {:induction false} ScopesInOrder(events: seq<Event>, i: nat, j: nat) returns (k: nat)
    requires i < j < |Scopes(events)|
    ensures k < |events| && (events[k].tenant, events[k].project) == Scopes(events)[i]
    ensures forall l :: 0 <= l <= k ==> (events[l].tenant, events[l].project) != Scopes(events)[j]
  {
    var n := |events| - 1;
    var front := Scopes(events[..n]);
    if j < |front| {
      k := ScopesInOrder(events[..n], i, j);
    } else {
      ScopesMember(events[..n], front[i]);
      k := FirstOf(events[..n], front[i]);
      forall l | 0 <= l < n
        ensures ScopeOf(events[l]) != ScopeOf(events[n])
      {
        ScopedBelongs(events[..n], ScopeOf(events[n]));
        ScopesMember(events[..n], ScopeOf(events[n]));
        assert events[..n][l] in events[..n];
      }
    }
  }

  lemma FirstOf(events: seq<Event>, sc: Scope) returns (k: nat)
    requires Scoped(events, sc) != []
    ensures k < |events| && ScopeOf(events[k]) == sc
  {
    ScopedBelongs(events, sc);
    var e := Scoped(events, sc)[0];
    assert e in Scoped(events, sc) && e in events;
    k :| 0 <= k < |events| && events[k] == e;
  }

  /** `xs` are the events at the positions `at`, in order, and these are all events
      of the scope. */
  ghost predicate ScopedAt(events: seq<Event>, sc: Scope, xs: seq<Event>, at: seq<nat>) {
    && |at| == |xs|
    && (forall k, l :: 0 <= k < l < |at| ==> at[k] < at[l])
    && (forall k :: 0 <= k < |at| ==> at[k] < |events| && events[at[k]] == xs[k])
    && (forall i: nat :: i in at <==> i < |events| && (events[i].tenant, events[i].project) == sc)
  }

  lemma ScopeOneMore(front: seq<Event>, e: Event, sc: Scope, xs: seq<Event>, at: seq<nat>)
    requires ScopedAt(front, sc, xs, at)
    ensures ScopeOf(e) != sc ==> ScopedAt(front + [e], sc, xs, at)
    ensures ScopeOf(e) == sc ==> ScopedAt(front + [e], sc, xs + [e], at + [|front|])
  {
    var n, events := |front|, front + [e];
    assert forall i :: 0 <= i < n ==> events[i] == front[i];
    assert events[n] == e;
    assert forall i: nat :: i in at + [n] <==> i in at || i == n;
  }

  lemma {:induction false} ScopedPositions(events: seq<Event>, sc: Scope) returns (at: seq<nat>)
    ensures ScopedAt(events, sc, Scoped(events, sc), at)
  {
    if events == [] {
      at := [];
    } else {
      var front, e := events[..|events| - 1], events[|events| - 1];
      at := ScopedPositions(front, sc);
      ScopeOneMore(front, e, sc, Scoped(front, sc), at);
      at := if ScopeOf(e) == sc then at + [|front|] else at;
      assert events == front + [e];
    }
  }

  /** One result per scope, in the given order. */
  function Results(events: seq<Event>, scopes: seq<Scope>): (r: seq<(Scope, Rollup)>)
    ensures |r| == |scopes|
  {
    if scopes == [] then [] else
      Results(events, scopes[..|scopes| - 1]) + [ResultOf(events, scopes[|scopes| - 1])]
  }

  function ResultOf(events: seq<Event>, sc: Scope): (Scope, Rollup) {
    (sc, ComputeRollup(Scoped(events, sc)))
  }

  /** The storage entries of a window's rollups. */
  function Saved(window: string, events: seq<Event>, scopes: seq<Scope>): map<(string, Scope), Rollup> {
    if scopes == [] then map[] else
      var last := scopes[|scopes| - 1];
      Saved(window, events, scopes[..|scopes| - 1])[(window, last) := ResultOf(events, last).1]
  }

  lemma ResultsAppend(window: string, events: seq<Event>, scopes: seq<Scope>, i: nat)
    requires i < |scopes|
    ensures Results(events, scopes[..i + 1]) == Results(events, scopes[..i]) + [ResultOf(events, scopes[i])]
    ensures Saved(window, events, scopes[..i + 1]) ==
            Saved(window, events, scopes[..i])[(window, scopes[i]) := ResultOf(events, scopes[i]).1]
  {
    assert scopes[..i + 1][..i] == scopes[..i];
  }

  lemma MergeThenPut<K, V>(m: map<K, V>, n: map<K, V>, k: K, v: V)
    ensures m + n[k := v] == (m + n)[k := v]
  {}

  lemma {:induction false} ResultsAt(events: seq<Event>, scopes: seq<Scope>, i: nat)
    requires i < |scopes|
    ensures Results(events, scopes)[i] == (scopes[i], ComputeRollup(Scoped(events, scopes[i])))
  {
    if i == |scopes| - 1 {
    } else {
      ResultsAt(events, scopes[..|scopes| - 1], i);
    }
  }

  /** What is stored for a window's scope is the rollup of exactly its events. */
  lemma {:induction false} SavedAt(window: string, events: seq<Event>, scopes: seq<Scope>, w: string, sc: Scope)
    ensures (w, sc) in Saved(window, events, scopes) <==> w == window && sc in scopes
    ensures w == window && sc in scopes ==>
              Saved(window, events, scopes)[(w, sc)] == ComputeRollup(Scoped(events, sc))
  {
    if scopes == [] {
    } else {
      var n := |scopes| - 1;
      assert scopes == scopes[..n] + [scopes[n]];
      SavedAt(window, events, scopes[..n], w, sc);
    }
  }

  /** The window lengths in seconds. */
  function WindowSeconds(window: string): Option<real> {
    if window == "hourly" then Some(3600.0)
    else if window == "daily" then Some(86400.0)
    else if window == "weekly" then Some(604800.0)
    else None
  }

  /** The events of every scope since the window's length ago. */
  ghost predicate RolledUp(raw: seq<Raw>, window: string, now: real, events: seq<Event>) {
    var length := if window == "hourly" then 3600.0 else if window == "daily" then 86400.0 else 604800.0;
    AllSince(raw, now - length, events)
  }

  ghost predicate AllSince(raw: seq<Raw>, since: real, events: seq<Event>) {
    exists at :: ListedAt(raw, Query(Some(since), None, None), events, at)
  }

  lemma AllTenants(raw: seq<Raw>, since: real, events: seq<Event>, at: seq<nat>)
    requires ListedAt(raw, Query(Some(since), Some("*"), None), events, at)
    ensures ListedAt(raw, Query(Some(since), None, None), events, at)
  {
    var all, any := Query(Some(since), Some("*"), None), Query(Some(since), None, None);
    assert forall r :: AskedFor(r, all) <==> AskedFor(r, any);
  }

  datatype RollupResult = UnsupportedWindow | Rollups(results: seq<(Scope, Rollup)>)

  class RoiAggregator {
    var stored: map<(string, Scope), Rollup>   // window and scope

    constructor ()
      ensures stored == map[]
    {
      stored := map[];
    }

    /** Computes and saves the rollup of one scope. */
    method SaveRollup(window: string, sc: Scope, scopeEvents: seq<Event>) returns (rollup: Rollup)
      modifies this
      ensures rollup == ComputeRollup(scopeEvents)
      ensures stored == old(stored)[(window, sc) := rollup]
    {
      rollup := ComputeRollup(scopeEvents);
      stored := stored[(window, sc) := rollup];
    }

    /** Loads the events of all scopes since the window's length ago and rolls them
        up; an unknown window is refused. */
    method RollupSince(window: string, collector: RoiCollector, now: real) returns (r: RollupResult)
      modifies this
      ensures r.UnsupportedWindow? <==> window !in ["hourly", "daily", "weekly"]
      ensures r.UnsupportedWindow? ==> stored == old(stored)
      ensures r.Rollups? ==>
                exists events :: RolledUp(collector.LoadedRaw(), window, now, events)
                  && r.results == Results(events, Scopes(events))
                  && stored == old(stored) + Saved(window, events, Scopes(events))
    {
      var length := WindowSeconds(window);
      if length.None? {
        return UnsupportedWindow;
      }
      var loaded := collector.LoadEvents(Query(Some(now - length.value), Some("*"), None), true);
      assert RolledUp(collector.LoadedRaw(), window, now, loaded.events) by {
        var at :| ListedAt(collector.LoadedRaw(), Query(Some(now - length.value), Some("*"), None), loaded.events, at);
        AllTenants(collector.LoadedRaw(), now - length.value, loaded.events, at);
      }
      var results := RollupWindow(window, loaded.events);
      return Rollups(results);
    }

    /** Groups the events, then computes and stores one rollup per scope. */
    method RollupWindow(window: string, events: seq<Event>) returns (results: seq<(Scope, Rollup)>)
      modifies this
      ensures results == Results(events, Scopes(events))
      ensures stored == old(stored) + Saved(window, events, Scopes(events))
    {
      var order, grouped := GroupByScope(events);
      results := [];
      assert order[..0] == [];
      for i := 0 to |order|
        invariant results == Results(events, order[..i])
        invariant stored == old(stored) + Saved(window, events, order[..i])
      {
        var rollup := SaveRollup(window, order[i], grouped[order[i]]);
        ResultsAppend(window, events, order, i);
        MergeThenPut(old(stored), Saved(window, events, order[..i]), (window, order[i]), rollup);
        results := results + [(order[i], rollup)];
      }
      assert order[..|order|] == order;
    }

    /** The dictionary of lists, with its insertion order. */
    static method GroupByScope(events: seq<Event>) returns (order: seq<Scope>, grouped: map<Scope, seq<Event>>)
      ensures order == Scopes(events)
      ensures forall sc :: sc in grouped <==> sc in order
      ensures forall sc :: sc in grouped ==> grouped[sc] == Scoped(events, sc)
    {
      order, grouped := [], map[];
      for i := 0 to |events|
        invariant order == Scopes(events[..i])
        invariant forall sc :: sc in grouped <==> sc in order
        invariant forall sc :: sc in grouped ==> grouped[sc] == Scoped(events[..i], sc)
      {
        assert events[..i + 1][..i] == events[..i];
        var sc := ScopeOf(events[i]);
        ScopesMember(events[..i], sc);
        if sc !in grouped {
          order, grouped := order + [sc], grouped[sc := []];
        }
        grouped := grouped[sc := grouped[sc] + [events[i]]];
      }
      assert events[..|events|] == events;
    }
  }

  lemma {:induction false} ScopedBelongs(events: seq<Event>, sc: Scope)
    ensures forall e :: e in Scoped(events, sc) <==> e in events && ScopeOf(e) == sc
  {
    if events == [] {
    } else {
      assert events == events[..|events| - 1] + [events[|events| - 1]];
      ScopedBelongs(events[..|events| - 1], sc);
    }
  }

  function SizesOver(events: seq<Event>, scopes: seq<Scope>): nat {
    if scopes == [] then 0 else
      SizesOver(events, scopes[..|scopes| - 1]) + |Scoped(events, scopes[|scopes| - 1])|
  }

  lemma {:induction false} SizesGrow(front: seq<Event>, e: Event, scopes: seq<Scope>)
    requires Distinct(scopes)
    ensures SizesOver(front + [e], scopes) == SizesOver(front, scopes) + (if ScopeOf(e) in scopes then 1 else 0)
  {
    if scopes == [] {
    } else {
      var n := |scopes| - 1;
      SizesGrow(front, e, scopes[..n]);
      assert (front + [e])[..|front|] == front;
      assert scopes == scopes[..n] + [scopes[n]];
    }
  }

  lemma {:induction false} SizesOverScopes(events: seq<Event>)
    ensures SizesOver(events, Scopes(events)) == |events|
  {
    if events == [] {
    } else {
      var front, e := events[..|events| - 1], events[|events| - 1];
      assert events == front + [e];
      SizesOverScopes(front);
      ScopesDistinct(front);
      SizesGrow(front, e, Scopes(front));
      if ScopeOf(e) !in Scopes(front) {
        ScopesMember(front, ScopeOf(e));
        assert Scopes(events)[..|Scopes(front)|] == Scopes(front);
        assert Scoped(events, ScopeOf(e)) == [e];
      }
    }
  }

  /** The rollups partition the events: each is counted in the rollup of its own
      scope and in no other, so their sizes add up to the number of events. */
  lemma RollupsPartition(events: seq<Event>, e: Event, sc: Scope)
    ensures SizesOver(events, Scopes(events)) == |events|
    ensures e in events ==> (e.tenant, e.project) in Scopes(events)
    ensures e in Scoped(events, sc) <==> e in events && (e.tenant, e.project) == sc
  {
    SizesOverScopes(events);
    ScopedBelongs(events, sc);
    ScopedBelongs(events, ScopeOf(e));
    ScopesMember(events, ScopeOf(e));
  }

  /** Learn and recall totals over all rollups. */
  function TotalsOver(events: seq<Event>, scopes: seq<Scope>): nat {
    if scopes == [] then 0 else
      var r := ComputeRollup(Scoped(events, scopes[|scopes| - 1]));
      TotalsOver(events, scopes[..|scopes| - 1]) + r.learn.total + r.recall.total
  }

  lemma {:induction false} TotalsAreSizes(events: seq<Event>, scopes: seq<Scope>)
    ensures TotalsOver(events, scopes) == SizesOver(events, scopes)
  {
    if scopes == [] {
    } else {
      TotalsAreSizes(events, scopes[..|scopes| - 1]);
      CountsAddUp(Scoped(events, scopes[|scopes| - 1]));
    }
  }

  lemma RollupTotals(events: seq<Event>)
    ensures TotalsOver(events, Scopes(events)) == |events|
  {
    TotalsAreSizes(events, Scopes(events));
    SizesOverScopes(events);
  }

  lemma {:induction false} ScopedPermutes(s: seq<Event>, t: seq<Event>, sc: Scope)
    requires multiset(s) == multiset(t)
    ensures multiset(Scoped(s, sc)) == multiset(Scoped(t, sc))
  {
    ScopedMultiset(s, sc);
    ScopedMultiset(t, sc);
  }

  lemma {:induction false} ScopedMultiset(s: seq<Event>, sc: Scope)
    ensures forall e :: multiset(Scoped(s, sc))[e] == if ScopeOf(e) == sc then multiset(s)[e] else 0
  {
    if s == [] {
    } else {
      var n := |s| - 1;
      assert s == s[..n] + [s[n]];
      ScopedMultiset(s[..n], sc);
    }
  }

  /** Reordering the events changes no scope's rollup and no set of scopes. */
  lemma RollupsAreOrderFree(s: seq<Event>, t: seq<Event>, sc: Scope)
    requires multiset(s) == multiset(t)
    ensures sc in Scopes(s) <==> sc in Scopes(t)
    ensures ComputeRollup(Scoped(s, sc)) == ComputeRollup(Scoped(t, sc))
  {
    ScopedPermutes(s, t, sc);
    RollupIsOrderFree(Scoped(s, sc), Scoped(t, sc));
    ScopesMember(s, sc);
    ScopesMember(t, sc);
    SameSize(Scoped(s, sc), Scoped(t, sc));
  }
}
