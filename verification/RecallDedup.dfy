/** Deduplication of recall matches (engramia/core/services/recall.py): a
    union-find over all pairs of similar tasks, then the best match of each
    group in the caller's order. */
module RecallDedup {
  import opened Jaccard

  datatype Match = Match(task: string, successScore: real, patternKey: string)

  // ----- what grouping means ------------------------------------------------

  predicate Linked(ms: seq<Match>, i: nat, j: nat)
    requires i < |ms| && j < |ms|
  {
    Similarity(ms[i].task, ms[j].task) > JACCARD_DEDUP_THRESHOLD
  }

  ghost predicate IsChain(ms: seq<Match>, p: seq<nat>, i: nat, j: nat) {
    && |p| > 0 && p[0] == i && p[|p| - 1] == j
    && (forall k :: 0 <= k < |p| ==> p[k] < |ms|)
    && (forall k :: 0 <= k < |p| - 1 ==> Linked(ms, p[k], p[k + 1]))
  }

  /** Transitively similar: some chain of similar tasks leads from i to j. */
  ghost predicate Connected(ms: seq<Match>, i: nat, j: nat) {
    exists p :: IsChain(ms, p, i, j)
  }

  /** i is preferred to j inside a group: higher score, earlier on a tie. */
  predicate Outranks(ms: seq<Match>, i: nat, j: nat)
    requires i < |ms| && j < |ms|
  {
    ms[j].successScore < ms[i].successScore || (ms[j].successScore == ms[i].successScore && i <= j)
  }

  ghost predicate Winner(ms: seq<Match>, i: nat)
    requires i < |ms|
  {
    forall j: nat :: j < |ms| && Connected(ms, i, j) ==> Outranks(ms, i, j)
  }

  /** The positions that survive among the first n, in input order. */
  ghost function SurvivorsUpTo(ms: seq<Match>, n: nat): (r: seq<nat>)
    requires n <= |ms|
    ensures forall k :: 0 <= k < |r| ==> r[k] < n && Winner(ms, r[k])
    ensures forall k, l :: 0 <= k < l < |r| ==> r[k] < r[l]
    ensures forall i: nat :: i < n && Winner(ms, i) ==> i in r
  {
    if n == 0 then [] else
      SurvivorsUpTo(ms, n - 1) + (if Winner(ms, n - 1) then [n - 1] else [])
  }

  function Pick(ms: seq<Match>, at: seq<nat>): (r: seq<Match>)
    requires forall k :: 0 <= k < |at| ==> at[k] < |ms|
    ensures |r| == |at| && forall k :: 0 <= k < |at| ==> r[k] == ms[at[k]]
  {
    seq(|at|, k requires 0 <= k < |at| => ms[at[k]])
  }

  ghost function Survivors(ms: seq<Match>): seq<Match> {
    Pick(ms, SurvivorsUpTo(ms, |ms|))
  }

  /** Two tasks with more than seven tenths of all their words in common. */
  predicate Similar(s: string, t: string) {
    10 * |WordSet(s) * WordSet(t)| > 7 * |WordSet(s) + WordSet(t)|
  }

  /** Each task of the chain is similar to the next. */
  ghost predicate Chained(ms: seq<Match>, p: seq<nat>, i: nat, j: nat) {
    && |p| > 0 && p[0] == i && p[|p| - 1] == j
    && (forall k :: 0 <= k < |p| ==> p[k] < |ms|)
    && (forall k :: 0 <= k < |p| - 1 ==> Similar(ms[p[k]].task, ms[p[k + 1]].task))
  }

  /** `kept` are the matches at the positions `at`, in input order, and these are
      the best of each group, the earliest on a tie. */
  ghost predicate KeptAt(ms: seq<Match>, kept: seq<Match>, at: seq<nat>) {
    && |at| == |kept|
    && (forall k, l :: 0 <= k < l < |at| ==> at[k] < at[l])
    && (forall k :: 0 <= k < |at| ==> at[k] < |ms| && kept[k] == ms[at[k]])
    && (forall i: nat :: i in at <==> i < |ms| && BestOfGroup(ms, i))
  }

  ghost predicate BestOfGroup(ms: seq<Match>, i: nat)
    requires i < |ms|
  {
    forall p, j: nat :: j < |ms| && Chained(ms, p, i, j) ==>
      ms[j].successScore < ms[i].successScore || (ms[j].successScore == ms[i].successScore && i <= j)
  }

  lemma ChainedIff(ms: seq<Match>, p: seq<nat>, i: nat, j: nat)
    ensures Chained(ms, p, i, j) <==> IsChain(ms, p, i, j)
  {
    forall k | 0 <= k < |p| - 1 && p[k] < |ms| && p[k + 1] < |ms|
      ensures Similar(ms[p[k]].task, ms[p[k + 1]].task) <==> Linked(ms, p[k], p[k + 1])
    {
      LinkedIff(ms[p[k]].task, ms[p[k + 1]].task);
    }
  }

  lemma BestIsWinnerIff(ms: seq<Match>, i: nat)
    requires i < |ms|
    ensures BestOfGroup(ms, i) <==> Winner(ms, i)
  {
    if BestOfGroup(ms, i) {
      forall j: nat | j < |ms| && Connected(ms, i, j)
        ensures Outranks(ms, i, j)
      {
        var p :| IsChain(ms, p, i, j);
        ChainedIff(ms, p, i, j);
      }
    }
    if Winner(ms, i) {
      forall p, j: nat | j < |ms| && Chained(ms, p, i, j)
        ensures ms[j].successScore < ms[i].successScore || (ms[j].successScore == ms[i].successScore && i <= j)
      {
        ChainedIff(ms, p, i, j);
        assert Connected(ms, i, j) && Outranks(ms, i, j);
      }
    }
  }

  lemma KeptAtSurvivors(ms: seq<Match>)
    ensures exists at :: KeptAt(ms, Survivors(ms), at)
  {
    var at := SurvivorsUpTo(ms, |ms|);
    forall i: nat
      ensures i in at <==> i < |ms| && BestOfGroup(ms, i)
    {
      if i < |ms| {
        BestIsWinnerIff(ms, i);
      }
    }
    assert KeptAt(ms, Survivors(ms), at);
  }

  // ----- connectedness is an equivalence --------------------------------------

  lemma LinkedSymmetric(ms: seq<Match>, i: nat, j: nat)
    requires i < |ms| && j < |ms|
    ensures Linked(ms, i, j) == Linked(ms, j, i)
  {
    OverlapRange(WordSet(ms[i].task), WordSet(ms[j].task));
  }

  lemma ConnectedReflexive(ms: seq<Match>, i: nat)
    requires i < |ms|
    ensures Connected(ms, i, i)
  {
    assert IsChain(ms, [i], i, i);
  }

  lemma ConnectedByLink(ms: seq<Match>, i: nat, j: nat)
    requires i < |ms| && j < |ms| && Linked(ms, i, j)
    ensures Connected(ms, i, j)
  {
    assert IsChain(ms, [i, j], i, j);
  }

  lemma ConnectedSymmetric(ms: seq<Match>, i: nat, j: nat)
    requires Connected(ms, i, j)
    ensures Connected(ms, j, i)
  {
    var p :| IsChain(ms, p, i, j);
    var n := |p|;
    var q := seq(n, k requires 0 <= k < n => p[n - 1 - k]);
    forall k | 0 <= k < n - 1
      ensures Linked(ms, q[k], q[k + 1])
    {
      var l := n - 2 - k;
      assert Linked(ms, p[l], p[l + 1]);
      LinkedSymmetric(ms, p[l], p[l + 1]);
    }
    assert IsChain(ms, q, j, i);
  }

  lemma ConnectedTransitive(ms: seq<Match>, i: nat, j: nat, k: nat)
    requires Connected(ms, i, j) && Connected(ms, j, k)
    ensures Connected(ms, i, k)
  {
    var p :| IsChain(ms, p, i, j);
    var q :| IsChain(ms, q, j, k);
    var r := p + q[1..];
    forall l | 0 <= l < |r| - 1
      ensures Linked(ms, r[l], r[l + 1])
    {
      if l < |p| - 1 {
        assert Linked(ms, p[l], p[l + 1]);
      } else {
        var m := l - (|p| - 1);
        assert r[l] == q[m] && r[l + 1] == q[m + 1];
        assert Linked(ms, q[m], q[m + 1]);
      }
    }
    assert IsChain(ms, r, i, k);
  }

  // ----- the union-find forest -------------------------------------------------

  /** `rep` names the root of every element's tree; ranks strictly increase
      towards the root, so parent links cannot cycle. */
  ghost predicate Forest(parent: seq<nat>, rank: seq<nat>, rep: seq<nat>) {
    && |parent| == |rank| == |rep|
    && forall x :: 0 <= x < |parent| ==> TreeNode(parent, rank, rep, x)
  }

  ghost predicate TreeNode(parent: seq<nat>, rank: seq<nat>, rep: seq<nat>, x: nat)
    requires |parent| == |rank| == |rep| && x < |parent|
  {
    && parent[x] < |parent| && rep[x] < |parent|
    && rep[parent[x]] == rep[x]
    && parent[rep[x]] == rep[x]
    && (parent[x] == x ==> rep[x] == x)
    && (parent[x] != x ==> rank[x] < rank[parent[x]])
  }

  /** The elements that a walk to the root may still visit. */
  ghost function RanksAbove(rank: seq<nat>, r: nat): set<nat> {
    set y: nat | y < |rank| && rank[y] > r
  }

  lemma RanksAboveShrink(rank: seq<nat>, x: nat, y: nat)
    requires x < |rank| && y < |rank| && rank[x] < rank[y]
    ensures RanksAbove(rank, rank[y]) < RanksAbove(rank, rank[x])
  {
    assert y in RanksAbove(rank, rank[x]) && y !in RanksAbove(rank, rank[y]);
  }

  /** Follows parent links to the root, halving the path on the way. */
  method Find(parent: array<nat>, x: nat, ghost rank: seq<nat>, ghost rep: seq<nat>) returns (root: nat)
    requires Forest(parent[..], rank, rep)
    requires x < parent.Length
    modifies parent
    ensures Forest(parent[..], rank, rep)
    ensures root == rep[x]
  {
    root := x;
    while parent[root] != root
      invariant root < parent.Length
      invariant Forest(parent[..], rank, rep)
      invariant rep[root] == rep[x]
      decreases RanksAbove(rank, rank[root])
    {
      ghost var before, at := parent[..], root;
      assert TreeNode(before, rank, rep, at);
      assert TreeNode(before, rank, rep, before[at]);
      parent[root] := parent[parent[root]];
      root := parent[root];
      assert parent[..] == before[at := before[before[at]]];
      HalvingKeepsForest(before, rank, rep, at);
      RanksAboveShrink(rank, at, root);
    }
    assert TreeNode(parent[..], rank, rep, root);
  }

  lemma HalvingKeepsForest(parent: seq<nat>, rank: seq<nat>, rep: seq<nat>, x: nat)
    requires Forest(parent, rank, rep) && x < |parent|
    ensures parent[x] < |parent| && parent[parent[x]] < |parent|
    ensures Forest(parent[x := parent[parent[x]]], rank, rep)
    ensures parent[x] != x ==> rank[x] < rank[parent[x]] <= rank[parent[parent[x]]]
    ensures rep[parent[parent[x]]] == rep[x]
  {
    assert TreeNode(parent, rank, rep, x);
    assert TreeNode(parent, rank, rep, parent[x]);
    var after := parent[x := parent[parent[x]]];
    forall y | 0 <= y < |after|
      ensures TreeNode(after, rank, rep, y)
    {
      assert TreeNode(parent, rank, rep, y);
      assert TreeNode(parent, rank, rep, rep[y]);
    }
  }

  /** The labelling after the trees rooted at `from` and `to` are joined. */
  ghost function Relabel(rep: seq<nat>, from: nat, to: nat): (r: seq<nat>)
    ensures |r| == |rep|
    ensures forall x :: 0 <= x < |rep| ==> r[x] == if rep[x] == from then to else rep[x]
  {
    seq(|rep|, x requires 0 <= x < |rep| => if rep[x] == from then to else rep[x])
  }

  /** Joins the trees of x and y, the lower rank below the higher. */
  method Union(parent: array<nat>, rank: array<nat>, x: nat, y: nat, ghost rep: seq<nat>)
    returns (ghost rep': seq<nat>)
    requires parent != rank && Forest(parent[..], rank[..], rep)
    requires x < parent.Length && y < parent.Length
    modifies parent, rank
    ensures Forest(parent[..], rank[..], rep')
    ensures rep' == Relabel(rep, rep[y], rep[x]) || rep' == Relabel(rep, rep[x], rep[y])
  {
    var rx := Find(parent, x, rank[..], rep);
    var ry := Find(parent, y, rank[..], rep);
    rep' := rep;
    if rx == ry {
      assert rep' == Relabel(rep, rep[y], rep[x]);
      return;
    }
    assert TreeNode(parent[..], rank[..], rep, x) && TreeNode(parent[..], rank[..], rep, y);
    if rank[rx] < rank[ry] {
      rx, ry := ry, rx;
    }
    rep' := Relabel(rep, ry, rx);
    ghost var p, k := parent[..], rank[..];
    parent[ry] := rx;
    if rank[rx] == rank[ry] {
      rank[rx] := rank[rx] + 1;
    }
    assert parent[..] == p[ry := rx];
    assert rank[..] == if k[rx] == k[ry] then k[rx := k[rx] + 1] else k;
    JoinKeepsForest(p, k, rep, rx, ry);
  }

  lemma JoinKeepsForest(parent: seq<nat>, rank: seq<nat>, rep: seq<nat>, rx: nat, ry: nat)
    requires Forest(parent, rank, rep)
    requires rx < |parent| && ry < |parent| && rx != ry && parent[rx] == rx && parent[ry] == ry
    requires rank[ry] <= rank[rx]
    ensures Forest(parent[ry := rx],
                   if rank[rx] == rank[ry] then rank[rx := rank[rx] + 1] else rank,
                   Relabel(rep, ry, rx))
  {
    var rank' := if rank[rx] == rank[ry] then rank[rx := rank[rx] + 1] else rank;
    var parent', rep' := parent[ry := rx], Relabel(rep, ry, rx);
    assert TreeNode(parent, rank, rep, rx) && TreeNode(parent, rank, rep, ry);
    forall z | 0 <= z < |parent'|
      ensures TreeNode(parent', rank', rep', z)
    {
      assert TreeNode(parent, rank, rep, z);
      assert TreeNode(parent, rank, rep, rep[z]);
    }
  }

  // ----- the grouping loops -----------------------------------------------------

  /** Equal labels are justified by a chain of similar tasks. */
  ghost predicate Sound(ms: seq<Match>, rep: seq<nat>) {
    |rep| == |ms| && forall i: nat, j: nat :: i < |ms| && j < |ms| && rep[i] == rep[j] ==> Connected(ms, i, j)
  }

  /** Every similar pair that precedes (i, j) in scan order has equal labels. */
  ghost predicate Scanned(ms: seq<Match>, rep: seq<nat>, i: nat, j: nat) {
    && |rep| == |ms|
    && forall a: nat, b: nat :: a < b < |ms| && (a < i || (a == i && b < j)) && Linked(ms, a, b) ==> rep[a] == rep[b]
  }

  lemma JoinKeepsSound(ms: seq<Match>, rep: seq<nat>, rep': seq<nat>, x: nat, y: nat)
    requires Sound(ms, rep) && x < |ms| && y < |ms| && Linked(ms, x, y)
    requires rep' == Relabel(rep, rep[y], rep[x]) || rep' == Relabel(rep, rep[x], rep[y])
    ensures Sound(ms, rep')
  {
    forall i: nat, j: nat | i < |ms| && j < |ms| && rep'[i] == rep'[j]
      ensures Connected(ms, i, j)
    {
      if rep[i] != rep[j] {
        ConnectedByLink(ms, x, y);
        ConnectedSymmetric(ms, x, y);
        if rep[i] == rep[x] {
          ConnectedTransitive(ms, i, x, y);
          ConnectedTransitive(ms, i, y, j);
        } else {
          ConnectedTransitive(ms, i, y, x);
          ConnectedTransitive(ms, i, x, j);
        }
      }
    }
  }

  /** Unites every pair of similar matches. */
  method Group(ms: seq<Match>, parent: array<nat>, rank: array<nat>) returns (ghost rep: seq<nat>)
    requires parent != rank && parent.Length == rank.Length == |ms|
    requires forall x :: 0 <= x < |ms| ==> parent[x] == x
    modifies parent, rank
    ensures Forest(parent[..], rank[..], rep)
    ensures Sound(ms, rep) && Scanned(ms, rep, |ms|, 0)
  {
    rep := seq(|ms|, x => x);
    assert Forest(parent[..], rank[..], rep);
    assert Sound(ms, rep) by {
      forall i: nat, j: nat | i < |ms| && j < |ms| && rep[i] == rep[j]
        ensures Connected(ms, i, j)
      {
        ConnectedReflexive(ms, i);
      }
    }
    for i := 0 to |ms|
      invariant Forest(parent[..], rank[..], rep)
      invariant Sound(ms, rep) && Scanned(ms, rep, i, 0)
    {
      for j := i + 1 to |ms|
        invariant Forest(parent[..], rank[..], rep)
        invariant Sound(ms, rep) && Scanned(ms, rep, i, j)
      {
        if Similarity(ms[i].task, ms[j].task) > JACCARD_DEDUP_THRESHOLD {
          ghost var before := rep;
          rep := Union(parent, rank, i, j, rep);
          JoinKeepsSound(ms, before, rep, i, j);
        }
      }
    }
  }

  /** After the scan, labels are equal exactly on connected matches. */
  lemma LabelsAreComponents(ms: seq<Match>, rep: seq<nat>, i: nat, j: nat)
    requires Sound(ms, rep) && Scanned(ms, rep, |ms|, 0) && i < |ms| && j < |ms|
    ensures rep[i] == rep[j] <==> Connected(ms, i, j)
  {
    if Connected(ms, i, j) {
      var p :| IsChain(ms, p, i, j);
      LabelsAlongChain(ms, rep, p, |p| - 1);
    }
  }

  lemma {:induction false} LabelsAlongChain(ms: seq<Match>, rep: seq<nat>, p: seq<nat>, k: nat)
    requires Scanned(ms, rep, |ms|, 0) && k < |p| && IsChain(ms, p, p[0], p[|p| - 1])
    ensures rep[p[k]] == rep[p[0]]
  {
    if k == 0 {
    } else {
      LabelsAlongChain(ms, rep, p, k - 1);
      assert Linked(ms, p[k - 1], p[k - 1 + 1]);
      LinkedSymmetric(ms, p[k - 1], p[k]);
      assert p[k - 1] < p[k] || p[k] < p[k - 1] || p[k] == p[k - 1];
    }
  }

  /** `best` maps the label of each of the first n matches to its preferred one. */
  ghost predicate BestOf(ms: seq<Match>, rep: seq<nat>, best: map<nat, nat>, n: nat) {
    && |rep| == |ms| && n <= |ms|
    && (forall r :: r in best ==> best[r] < n && rep[best[r]] == r)
    && (forall j: nat :: j < n ==> rep[j] in best && Outranks(ms, best[rep[j]], j))
  }

  lemma BestIsWinner(ms: seq<Match>, rep: seq<nat>, best: map<nat, nat>, i: nat)
    requires BestOf(ms, rep, best, |ms|) && Sound(ms, rep) && Scanned(ms, rep, |ms|, 0) && i < |ms|
    ensures i in best.Values <==> Winner(ms, i)
  {
    if i in best.Values {
      assert best[rep[i]] == i;
      forall j: nat | j < |ms| && Connected(ms, i, j)
        ensures Outranks(ms, i, j)
      {
        LabelsAreComponents(ms, rep, i, j);
      }
    }
    if Winner(ms, i) {
      var b := best[rep[i]];
      LabelsAreComponents(ms, rep, i, b);
      assert Outranks(ms, i, b) && Outranks(ms, b, i);
      assert rep[i] in best.Keys;
    }
  }

  /** Chooses the preferred match of every tree. */
  method ChooseBest(ms: seq<Match>, parent: array<nat>, ghost ranks: seq<nat>, ghost rep: seq<nat>)
    returns (best: map<nat, nat>)
    requires Forest(parent[..], ranks, rep) && parent.Length == |ms|
    modifies parent
    ensures BestOf(ms, rep, best, |ms|)
  {
    best := map[];
    for i := 0 to |ms|
      invariant Forest(parent[..], ranks, rep)
      invariant BestOf(ms, rep, best, i)
    {
      var root := Find(parent, i, ranks, rep);
      if root !in best || ms[i].successScore > ms[best[root]].successScore {
        best := best[root := i];
      }
    }
  }

  /** Lists the chosen matches in ascending order of position. */
  method InInputOrder(ms: seq<Match>, chosen: set<nat>) returns (kept: seq<Match>)
    requires forall i: nat :: i < |ms| ==> (i in chosen <==> Winner(ms, i))
    ensures kept == Survivors(ms)
  {
    kept := [];
    for i := 0 to |ms|
      invariant kept == Pick(ms, SurvivorsUpTo(ms, i))
    {
      if i in chosen {
        kept := kept + [ms[i]];
      }
    }
  }

  /** Keeps the best-scoring match of each group of transitively similar tasks,
      in the order of the input. */
  method DeduplicateMatches(ms: seq<Match>) returns (kept: seq<Match>)
    ensures kept == Survivors(ms)
    ensures exists at :: KeptAt(ms, kept, at)
  {
    KeptAtSurvivors(ms);
    var parent := new nat[|ms|](i => i);
    var rank := new nat[|ms|](i => 0);
    ghost var rep := Group(ms, parent, rank);
    var best := ChooseBest(ms, parent, rank[..], rep);
    forall i: nat | i < |ms|
      ensures i in best.Values <==> Winner(ms, i)
    {
      BestIsWinner(ms, rep, best, i);
    }
    kept := InInputOrder(ms, best.Values);
  }

  // ----- what deduplication promises ----------------------------------------------

  /** Every match is represented by a survivor of its own group that scores at
      least as high. */
  lemma GroupHasWinner(ms: seq<Match>, i: nat) returns (w: nat)
    requires i < |ms|
    ensures w < |ms| && Connected(ms, i, w) && Winner(ms, w) && Outranks(ms, w, i)
  {
    w := i;
    ConnectedReflexive(ms, i);
    for j := 0 to |ms|
      invariant w < |ms| && Connected(ms, i, w) && Outranks(ms, w, i)
      invariant forall l: nat :: l < j && Connected(ms, i, l) ==> Outranks(ms, w, l)
    {
      if Connected(ms, i, j) && Outranks(ms, j, w) {
        w := j;
      }
    }
    forall j: nat | j < |ms| && Connected(ms, w, j)
      ensures Outranks(ms, w, j)
    {
      ConnectedTransitive(ms, i, w, j);
    }
  }

  /** ... and by only one. */
  lemma GroupHasOneWinner(ms: seq<Match>, a: nat, b: nat)
    requires a < |ms| && b < |ms| && Winner(ms, a) && Winner(ms, b) && Connected(ms, a, b)
    ensures a == b
  {
    ConnectedSymmetric(ms, a, b);
    assert Outranks(ms, a, b) && Outranks(ms, b, a);
  }

  /** No two survivors are near-duplicates of each other. */
  lemma SurvivorsAreDissimilar(ms: seq<Match>, k: nat, l: nat)
    requires k < |Survivors(ms)| && l < |Survivors(ms)| && k != l
    ensures Similarity(Survivors(ms)[k].task, Survivors(ms)[l].task) <= JACCARD_DEDUP_THRESHOLD
  {
    var at := SurvivorsUpTo(ms, |ms|);
    if Linked(ms, at[k], at[l]) {
      ConnectedByLink(ms, at[k], at[l]);
      GroupHasOneWinner(ms, at[k], at[l]);
    }
  }

  /** How far a group can drift: p links keep the overlap above 1 - 0.3 p. */
  lemma GroupCohesion(ms: seq<Match>, p: seq<nat>, i: nat, j: nat)
    requires IsChain(ms, p, i, j) && |p| >= 2
    ensures Similarity(ms[i].task, ms[j].task) > ChainFloor(|p| - 1, JACCARD_DEDUP_THRESHOLD)
  {
    var texts := seq(|p|, k requires 0 <= k < |p| => ms[p[k]].task);
    forall k | 0 <= k < |texts| - 1
      ensures Similarity(texts[k], texts[k + 1]) > JACCARD_DEDUP_THRESHOLD
    {
      assert Linked(ms, p[k], p[k + 1]);
    }
    ChainTelescopes(texts, JACCARD_DEDUP_THRESHOLD);
  }

  // ----- independence of the input order -------------------------------------------

  /** perm and inv are inverse rearrangements of n positions. */
  ghost predicate Rearranges(perm: seq<nat>, inv: seq<nat>, n: nat) {
    && |perm| == |inv| == n
    && (forall k :: 0 <= k < n ==> perm[k] < n && inv[perm[k]] == k)
    && (forall k :: 0 <= k < n ==> inv[k] < n && perm[inv[k]] == k)
  }

  lemma ChainMoves(ms: seq<Match>, ms': seq<Match>, to: seq<nat>, i: nat, j: nat)
    requires |to| == |ms'| && forall k :: 0 <= k < |to| ==> to[k] < |ms| && ms'[k] == ms[to[k]]
    requires i < |ms'| && j < |ms'| && Connected(ms', i, j)
    ensures Connected(ms, to[i], to[j])
  {
    var p :| IsChain(ms', p, i, j);
    var q := seq(|p|, k requires 0 <= k < |p| => to[p[k]]);
    forall k | 0 <= k < |q| - 1
      ensures Linked(ms, q[k], q[k + 1])
    {
      assert Linked(ms', p[k], p[k + 1]);
    }
    assert IsChain(ms, q, to[i], to[j]);
  }

  /** Groups do not depend on the order of the matches. */
  lemma GroupsAreOrderFree(ms: seq<Match>, perm: seq<nat>, inv: seq<nat>, i: nat, j: nat)
    requires Rearranges(perm, inv, |ms|) && i < |ms| && j < |ms|
    ensures Connected(Pick(ms, perm), i, j) <==> Connected(ms, perm[i], perm[j])
  {
    var ms' := Pick(ms, perm);
    if Connected(ms', i, j) {
      ChainMoves(ms, ms', perm, i, j);
    }
    if Connected(ms, perm[i], perm[j]) {
      ChainMoves(ms', ms, inv, perm[i], perm[j]);
    }
  }

  /** Reordering never changes the score that represents a group. */
  lemma GroupScoreIsOrderFree(ms: seq<Match>, perm: seq<nat>, inv: seq<nat>, a: nat, b: nat)
    requires Rearranges(perm, inv, |ms|) && a < |ms| && b < |ms|
    requires Winner(Pick(ms, perm), a) && Winner(ms, b) && Connected(ms, perm[a], b)
    ensures Pick(ms, perm)[a].successScore == ms[b].successScore
  {
    var ms' := Pick(ms, perm);
    GroupsAreOrderFree(ms, perm, inv, a, inv[b]);
    assert Outranks(ms', a, inv[b]);
    ConnectedSymmetric(ms, perm[a], b);
    assert Outranks(ms, b, perm[a]);
  }

  ghost predicate NoTies(ms: seq<Match>) {
    forall i: nat, j: nat :: i < |ms| && j < |ms| && i != j && Connected(ms, i, j) ==>
      ms[i].successScore != ms[j].successScore
  }

  /** Without equal scores inside a group the same matches survive whatever the
      order they were given in. */
  lemma SurvivalIsOrderFree(ms: seq<Match>, perm: seq<nat>, inv: seq<nat>, i: nat)
    requires Rearranges(perm, inv, |ms|) && NoTies(ms) && i < |ms|
    ensures Winner(Pick(ms, perm), i) <==> Winner(ms, perm[i])
  {
    var ms' := Pick(ms, perm);
    if Winner(ms', i) {
      var w := GroupHasWinner(ms, perm[i]);
      GroupScoreIsOrderFree(ms, perm, inv, i, w);
    }
    if Winner(ms, perm[i]) {
      var w := GroupHasWinner(ms', i);
      GroupsAreOrderFree(ms, perm, inv, i, w);
      ConnectedSymmetric(ms, perm[i], perm[w]);
      GroupScoreIsOrderFree(ms, perm, inv, w, perm[i]);
      assert inv[perm[w]] == w && inv[perm[i]] == i;
    }
  }

  // ----- deduplicating twice --------------------------------------------------------

  lemma {:induction false} SurvivorChainsStandStill(ms: seq<Match>, p: seq<nat>, k: nat)
    requires k < |p| && IsChain(Survivors(ms), p, p[0], p[|p| - 1])
    ensures p[k] == p[0]
  {
    if k == 0 {
    } else {
      SurvivorChainsStandStill(ms, p, k - 1);
      assert Linked(Survivors(ms), p[k - 1], p[k - 1 + 1]);
      if p[k] != p[k - 1] {
        SurvivorsAreDissimilar(ms, p[k - 1], p[k]);
      }
    }
  }

  lemma {:induction false} IncreasingAbove(r: seq<nat>, k: nat)
    requires forall i, j :: 0 <= i < j < |r| ==> r[i] < r[j]
    requires k < |r|
    ensures k <= r[k]
  {
    if k == 0 {
    } else {
      IncreasingAbove(r, k - 1);
    }
  }

  /** An increasing listing of all numbers below n lists k at position k. */
  lemma {:induction false} FullListing(r: seq<nat>, n: nat, k: nat)
    requires forall i, j :: 0 <= i < j < |r| ==> r[i] < r[j]
    requires forall i: nat :: i < n ==> i in r
    requires k < n
    ensures k < |r| && r[k] == k
  {
    assert k in r;
    var at :| 0 <= at < |r| && r[at] == k;
    if k == 0 {
    } else {
      FullListing(r, n, k - 1);
    }
  }

  lemma PickEverything(ks: seq<Match>, r: seq<nat>)
    requires forall k :: 0 <= k < |r| ==> r[k] < |ks|
    requires forall i, j :: 0 <= i < j < |r| ==> r[i] < r[j]
    requires forall i: nat :: i < |ks| ==> i in r
    ensures Pick(ks, r) == ks
  {
    var n := |ks|;
    forall k: nat | k < n
      ensures k < |r| && r[k] == k
    {
      FullListing(r, n, k);
    }
    if r != [] {
      IncreasingAbove(r, |r| - 1);
    }
    if n > 0 {
      FullListing(r, n, n - 1);
    }
  }

  /** Deduplicated matches are left alone by a second pass. */
  lemma DedupIsIdempotent(ms: seq<Match>)
    ensures Survivors(Survivors(ms)) == Survivors(ms)
  {
    var ks := Survivors(ms);
    forall i: nat | i < |ks|
      ensures Winner(ks, i)
    {
      forall j: nat | j < |ks| && Connected(ks, i, j)
        ensures Outranks(ks, i, j)
      {
        var p :| IsChain(ks, p, i, j);
        SurvivorChainsStandStill(ms, p, |p| - 1);
      }
    }
    PickEverything(ks, SurvivorsUpTo(ks, |ks|));
  }
}
