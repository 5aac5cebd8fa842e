/** Word-level Jaccard similarity (engramia/_util.py) and the metric facts that
    grouping by a similarity threshold rests on. Scores are exact reals. */
module Jaccard {

  /** Task word overlap above which recall treats two tasks as the same. */
  const JACCARD_DEDUP_THRESHOLD := 0.7

  // ----- words of a text ----------------------------------------------------

  predicate IsSpace(c: char) {
    c == ' ' || '\t' <= c <= '\r' || '\U{001C}' <= c <= '\U{001F}'
  }

  function LowerChar(c: char): char {
    if 'A' <= c <= 'Z' then ((c as int) - ('A' as int) + ('a' as int)) as char else c
  }

  function Lower(s: string): (r: string)
    ensures |r| == |s|
  {
    seq(|s|, i requires 0 <= i < |s| => LowerChar(s[i]))
  }

  /** The ASCII characters that Python splits and strips on. */
  lemma SpacesAre(c: char)
    ensures IsSpace(c) <==>
              c in [' ', '\t', '\n', '\U{000B}', '\U{000C}', '\r', '\U{001C}', '\U{001D}', '\U{001E}', '\U{001F}']
  {}

  function StripLeft(s: string): string {
    if s != [] && IsSpace(s[0]) then StripLeft(s[1..]) else s
  }

  function StripRight(s: string): string {
    if s != [] && IsSpace(s[|s| - 1]) then StripRight(s[..|s| - 1]) else s
  }

  lemma {:induction false} StripLeftSpec(s: string) returns (i: nat)
    ensures i <= |s| && StripLeft(s) == s[i..]
    ensures forall k :: 0 <= k < i ==> IsSpace(s[k])
    ensures i < |s| ==> !IsSpace(s[i])
  {
    if s != [] && IsSpace(s[0]) {
      var k := StripLeftSpec(s[1..]);
      i := k + 1;
    } else {
      i := 0;
    }
  }

  lemma {:induction false} StripRightSpec(s: string) returns (j: nat)
    ensures j <= |s| && StripRight(s) == s[..j]
    ensures forall k :: j <= k < |s| ==> IsSpace(s[k])
    ensures j > 0 ==> !IsSpace(s[j - 1])
  {
    if s != [] && IsSpace(s[|s| - 1]) {
      j := StripRightSpec(s[..|s| - 1]);
    } else {
      j := |s|;
    }
  }

  /** The same letter up to case, or the same character. */
  predicate SameLetter(a: char, b: char) {
    || a == b
    || ('A' <= a <= 'Z' && b as int == a as int + 32)
    || ('A' <= b <= 'Z' && a as int == b as int + 32)
  }

  predicate SameLetters(s: string, t: string) {
    |s| == |t| && forall k :: 0 <= k < |s| ==> SameLetter(s[k], t[k])
  }

  /** Lower-casing is the one recasing without capitals. */
  lemma LowerRecases(s: string)
    ensures SameLetters(s, Lower(s)) && forall k :: 0 <= k < |s| ==> !('A' <= Lower(s)[k] <= 'Z')
  {}

  lemma LowerIff(s: string, t: string)
    ensures Lower(s) == Lower(t) <==> SameLetters(s, t)
  {
    if Lower(s) == Lower(t) {
      forall k | 0 <= k < |s|
        ensures SameLetter(s[k], t[k])
      {
        assert Lower(s)[k] == Lower(t)[k];
      }
    }
  }

  /** Splits on runs of white space; `word` is the unfinished word read so far. */
  function SplitFrom(s: string, word: string): seq<string>
    decreases |s|
  {
    if s == [] then
      if word == [] then [] else [word]
    else if IsSpace(s[0]) then
      (if word == [] then [] else [word]) + SplitFrom(s[1..], [])
    else
      SplitFrom(s[1..], word + [s[0]])
  }

  function WordSet(text: string): set<string> {
    set w | w in SplitFrom(Lower(text), [])
  }

  /** s[i..j] is a word of s: no white space inside, none missing around it. */
  predicate WordAt(s: string, i: nat, j: nat) {
    && i < j <= |s|
    && (forall k :: i <= k < j ==> !IsSpace(s[k]))
    && (i == 0 || IsSpace(s[i - 1]))
    && (j == |s| || IsSpace(s[j]))
  }

  ghost predicate IsWordOf(s: string, w: string) {
    exists i: nat, j: nat :: WordAt(s, i, j) && w == s[i..j]
  }

  lemma WordsAfterSpace(t: string, m: nat, i: nat, j: nat)
    requires 0 < m <= |t| && IsSpace(t[m - 1])
    ensures WordAt(t[m..], i, j) <==> WordAt(t, i + m, j + m)
    ensures i <= j <= |t| - m ==> t[m..][i..j] == t[i + m..j + m]
  {
    assert forall k :: m <= k < |t| ==> t[m..][k - m] == t[k];
  }

  lemma WordsAroundSpace(word: string, rest: string, sp: char, w: string)
    requires IsSpace(sp) && forall k :: 0 <= k < |word| ==> !IsSpace(word[k])
    ensures IsWordOf(word + [sp] + rest, w) <==> (word != [] && w == word) || IsWordOf(rest, w)
  {
    var t, m := word + [sp] + rest, |word| + 1;
    assert t[m..] == rest;
    if word != [] && w == word {
      assert WordAt(t, 0, |word|) && t[0..|word|] == word;
    }
    if IsWordOf(rest, w) {
      var i: nat, j: nat :| WordAt(rest, i, j) && w == rest[i..j];
      WordsAfterSpace(t, m, i, j);
    }
    if IsWordOf(t, w) {
      var i: nat, j: nat :| WordAt(t, i, j) && w == t[i..j];
      assert t[|word|] == sp;
      if i < m {
        assert i == 0 && j == |word| && t[i..j] == word;
      } else {
        WordsAfterSpace(t, m, i - m, j - m);
      }
    }
  }

  /** Splitting yields exactly the words of the text. */
  lemma {:induction false} SplitYieldsWords(s: string, word: string, w: string)
    requires forall k :: 0 <= k < |word| ==> !IsSpace(word[k])
    ensures w in SplitFrom(s, word) <==> IsWordOf(word + s, w)
    decreases |s|
  {
    if s == [] {
      assert word + s == word;
      if word != [] {
        assert WordAt(word, 0, |word|) && word[0..|word|] == word;
      }
    } else if IsSpace(s[0]) {
      assert word + s == word + [s[0]] + s[1..];
      assert [] + s[1..] == s[1..];
      SplitYieldsWords(s[1..], [], w);
      WordsAroundSpace(word, s[1..], s[0], w);
    } else {
      assert word + s == (word + [s[0]]) + s[1..];
      SplitYieldsWords(s[1..], word + [s[0]], w);
    }
  }

  /** Recasing a text leaves its words alone. */
  lemma RecasingKeepsWords(s: string, t: string)
    requires SameLetters(s, t)
    ensures WordSet(s) == WordSet(t)
  {
    LowerIff(s, t);
  }

  /** The words of a text are the maximal runs without space of its lower-cased
      form. */
  lemma WordSetIs(text: string, w: string)
    ensures w in WordSet(text) <==> IsWordOf(Lower(text), w)
  {
    SplitYieldsWords(Lower(text), [], w);
    assert [] + Lower(text) == Lower(text);
  }

  // ----- the similarity -----------------------------------------------------

  function Overlap(a: set<string>, b: set<string>): real {
    if a == {} || b == {} then 0.0
    else |a * b| as real / |a + b| as real
  }

  function Similarity(a: string, b: string): real {
    Overlap(WordSet(a), WordSet(b))
  }

  function Distance(a: set<string>, b: set<string>): real {
    1.0 - Overlap(a, b)
  }

  /** The similarity is the share of common words among all words, 0 without. */
  lemma OverlapIsShare(a: set<string>, b: set<string>)
    ensures Overlap(a, b) * |a + b| as real == |a * b| as real
    ensures a + b == {} ==> Overlap(a, b) == 0.0
  {
    if a == {} || b == {} {
      assert a * b == {};
    } else {
      NonEmptyCard(a + b);
    }
  }

  /** Texts are linked exactly when more than seven tenths of all their words are
      common. */
  lemma LinkedIff(s: string, t: string)
    ensures Similarity(s, t) > JACCARD_DEDUP_THRESHOLD <==>
              10 * |WordSet(s) * WordSet(t)| > 7 * |WordSet(s) + WordSet(t)|
  {
    var a, b := WordSet(s), WordSet(t);
    OverlapIsShare(a, b);
    if a + b == {} {
      assert a * b == {};
    } else {
      NonEmptyCard(a + b);
      ShareAbove(Overlap(a, b), |a * b|, |a + b|);
    }
  }

  lemma ShareAbove(q: real, m: nat, u: nat)
    requires u > 0 && q * u as real == m as real
    ensures q > 0.7 <==> 10 * m > 7 * u
  {
    var x := u as real;
    if q > 0.7 {
      TimesAbove(0.7, q, x);
    } else if q < 0.7 {
      TimesAbove(q, 0.7, x);
    }
  }

  lemma TimesAbove(a: real, b: real, n: real)
    requires a < b && 0.0 < n
    ensures a * n < b * n
  {}

  // ----- arithmetic of ratios -----------------------------------------------

  lemma RatioOfSmallerDenominator(x: real, y: real, z: real)
    requires 0.0 <= x && 0.0 < y <= z
    ensures x / z <= x / y
  {
    var q := x / y;
    assert x == q * y && 0.0 <= q;
    assert q * y <= q * z;
    assert x / z * z == x;
  }

  lemma RatioGrowsWithBoth(x: real, y: real, d: real)
    requires 0.0 <= x <= y && 0.0 < y && 0.0 <= d
    ensures x / y <= (x + d) / (y + d)
  {
    var q := (x + d) / (y + d);
    assert q * (y + d) == x + d;
    assert q <= 1.0;
    assert q * d <= d;
    assert q * y >= x;
    assert x / y * y == x;
  }

  // ----- cardinalities ------------------------------------------------------

  function Difference(a: set<string>, b: set<string>): set<string> {
    (a - b) + (b - a)
  }

  lemma DisjointCard(x: set<string>, y: set<string>)
    requires x !! y
    ensures |x + y| == |x| + |y|
  {}

  lemma {:induction false} SubsetCard(x: set<string>, y: set<string>)
    requires x <= y
    ensures |x| <= |y|
  {
    DisjointCard(x, y - x);
    assert x + (y - x) == y;
  }

  lemma NonEmptyCard(x: set<string>)
    requires x != {}
    ensures |x| > 0
  {}

  lemma DifferenceCard(a: set<string>, b: set<string>)
    ensures |Difference(a, b)| + |a * b| == |a + b|
  {
    DisjointCard(Difference(a, b), a * b);
    assert Difference(a, b) + a * b == a + b;
  }

  lemma ComplementRatio(d: real, m: real, u: real)
    requires d + m == u && 0.0 < u
    ensures 1.0 - m / u == d / u
  {
    assert d / u + m / u == (d + m) / u;
  }

  /** On non-empty word sets the distance is |a ^ b| / |a | b|. */
  lemma DistanceAsDifference(a: set<string>, b: set<string>)
    requires a != {} && b != {}
    ensures |a + b| > 0
    ensures Distance(a, b) == |Difference(a, b)| as real / |a + b| as real
  {
    NonEmptyCard(a + b);
    DifferenceCard(a, b);
    ComplementRatio(|Difference(a, b)| as real, |a * b| as real, |a + b| as real);
  }

  // ----- the metric laws ----------------------------------------------------

  lemma OverlapRange(a: set<string>, b: set<string>)
    ensures 0.0 <= Overlap(a, b) <= 1.0
    ensures Overlap(a, b) == Overlap(b, a)
  {
    assert a * b == b * a && a + b == b + a;
    if a != {} && b != {} {
      NonEmptyCard(a + b);
      DifferenceCard(a, b);
      RatioExtremes(|a * b|, |Difference(a, b)|, |a + b|);
    }
  }

  lemma RatioExtremes(m: nat, d: nat, u: nat)
    requires m + d == u && 0 < u
    ensures 0.0 <= m as real / u as real <= 1.0
    ensures m as real / u as real == 1.0 <==> d == 0
    ensures m as real / u as real == 0.0 <==> m == 0
  {
    assert m as real / u as real * u as real == m as real;
  }

  /** Full overlap is equality of non-empty word sets; none is disjointness. */
  lemma OverlapExtremes(a: set<string>, b: set<string>)
    ensures Overlap(a, b) == 1.0 <==> a == b && a != {}
    ensures Overlap(a, b) == 0.0 <==> a * b == {}
  {
    if a != {} && b != {} {
      NonEmptyCard(a + b);
      DifferenceCard(a, b);
      RatioExtremes(|a * b|, |Difference(a, b)|, |a + b|);
      assert |a * b| == 0 <==> a * b == {};
      assert Difference(a, b) == {} <==> a == b by {
        if Difference(a, b) == {} {
          assert a - b == {} && b - a == {};
        }
      }
    }
  }

  /** The distance of a text to itself is 0 except for texts without a word,
      which are at distance 1 from everything, themselves included: the distance
      is a pseudo-metric exactly on the non-empty word sets. */
  lemma SelfDistance(a: set<string>)
    ensures Distance(a, a) == 0.0 <==> a != {}
    ensures a == {} ==> forall b :: Distance(a, b) == 1.0
  {
    OverlapExtremes(a, a);
  }

  /** The new elements of b widen a | c by no more than they widen the two
      differences with b. */
  lemma DetourCard(a: set<string>, b: set<string>, c: set<string>)
    ensures |Difference(a, c)| + |b - (a + c)| <= |Difference(a, b)| + |Difference(b, c)|
    ensures |a + c| + |b - (a + c)| == |a + b + c|
  {
    var own := b - (a + c);
    var ab, bc := Difference(a, b), Difference(b, c);
    DisjointCard(Difference(a, c), own);
    DisjointCard(a + c, own);
    assert a + c + own == a + b + c;
    SubsetCard(Difference(a, c) + own, ab + bc);
    DisjointCard(ab, bc - ab);
    assert ab + (bc - ab) == ab + bc;
    SubsetCard(bc - ab, bc);
  }

  lemma DetourRatio(ac: real, ab: real, bc: real, own: real, inAC: real, inAB: real, inBC: real, all: real)
    requires 0.0 <= ac <= inAC && 0.0 <= ab && 0.0 <= bc && 0.0 <= own
    requires 0.0 < inAC && 0.0 < inAB <= all && 0.0 < inBC <= all
    requires inAC + own == all && ac + own <= ab + bc
    ensures ac / inAC <= ab / inAB + bc / inBC
  {
    RatioGrowsWithBoth(ac, inAC, own);
    RatioOfSmallerDenominator(ab, inAB, all);
    RatioOfSmallerDenominator(bc, inBC, all);
    RatioOfSums(ac + own, ab, bc, all);
  }

  lemma RatioOfSums(x: real, y: real, z: real, n: real)
    requires 0.0 < n && x <= y + z
    ensures x / n <= y / n + z / n
  {
    assert y / n + z / n == (y + z) / n;
    var spare := (y + z - x) / n;
    assert spare * n == y + z - x >= 0.0;
    assert spare >= 0.0;
    assert x / n + spare == (y + z) / n;
  }

  lemma TriangleOnWords(a: set<string>, b: set<string>, c: set<string>)
    requires a != {} && b != {} && c != {}
    ensures Distance(a, c) <= Distance(a, b) + Distance(b, c)
  {
    DistanceAsDifference(a, b);
    DistanceAsDifference(b, c);
    DistanceAsDifference(a, c);
    DetourCard(a, b, c);
    SubsetCard(a + b, a + b + c);
    SubsetCard(b + c, a + b + c);
    SubsetCard(Difference(a, c), a + c);
    DetourRatio(|Difference(a, c)| as real, |Difference(a, b)| as real, |Difference(b, c)| as real,
                |b - (a + c)| as real, |a + c| as real, |a + b| as real, |b + c| as real, |a + b + c| as real);
  }

  /** Triangle inequality, for all word sets including empty ones. */
  lemma Triangle(a: set<string>, b: set<string>, c: set<string>)
    ensures Distance(a, c) <= Distance(a, b) + Distance(b, c)
  {
    if a != {} && b != {} && c != {} {
      TriangleOnWords(a, b, c);
    } else {
      OverlapRange(a, b);
      OverlapRange(b, c);
      OverlapRange(a, c);
    }
  }

  // ----- chains of similar texts --------------------------------------------

  /** Every text of the chain overlaps the next by more than t. */
  ghost predicate ChainAbove(texts: seq<string>, t: real) {
    forall k :: 0 <= k < |texts| - 1 ==> Similarity(texts[k], texts[k + 1]) > t
  }

  /** What n links above t guarantee for the ends of a chain. */
  function ChainFloor(links: nat, t: real): (r: real)
    ensures r == 1.0 - links as real * (1.0 - t)
  {
    if links == 0 then 1.0 else
      OneMoreLink(links - 1, t);
      ChainFloor(links - 1, t) - (1.0 - t)
  }

  lemma OneMoreLink(n: nat, t: real)
    ensures n as real * (1.0 - t) + (1.0 - t) == (n + 1) as real * (1.0 - t)
  {}

  lemma LengthenChain(first: string, mid: string, last: string, floor: real, t: real)
    requires Similarity(first, mid) > floor && Similarity(mid, last) > t
    ensures Similarity(first, last) > floor - (1.0 - t)
  {
    Triangle(WordSet(first), WordSet(mid), WordSet(last));
  }

  /** Losses add up along a chain: n links above t leave the ends with more
      than 1 - n * (1 - t). */
  lemma {:induction false} ChainTelescopes(texts: seq<string>, t: real)
    requires |texts| >= 2 && ChainAbove(texts, t)
    ensures Similarity(texts[0], texts[|texts| - 1]) > ChainFloor(|texts| - 1, t)
  {
    var n := |texts| - 2;
    assert Similarity(texts[n], texts[n + 1]) > t;
    if n == 0 {
    } else {
      assert ChainAbove(texts[..n + 1], t);
      ChainTelescopes(texts[..n + 1], t);
      LengthenChain(texts[0], texts[n], texts[n + 1], ChainFloor(n, t), t);
    }
  }

  /** Two links at the deduplication threshold leave more than 0.4. */
  lemma TwoDedupLinks(a: string, b: string, c: string)
    requires Similarity(a, b) > JACCARD_DEDUP_THRESHOLD
    requires Similarity(b, c) > JACCARD_DEDUP_THRESHOLD
    ensures Similarity(a, c) > 0.4
  {
    ChainTelescopes([a, b, c], JACCARD_DEDUP_THRESHOLD);
  }

  // ----- texts that reach the bound ------------------------------------------

  /** A word of n + 1 letters. */
  function Word(n: nat): string {
    seq(n + 1, _ => 'a')
  }

  function Words(lo: nat, hi: nat): set<string> {
    set n | lo <= n < hi :: Word(n)
  }

  /** The text of these words. */
  function TextOf(lo: nat, hi: nat): string
    decreases hi - lo
  {
    if lo >= hi then "" else Word(lo) + [' '] + TextOf(lo + 1, hi)
  }

  lemma {:induction false} TextIsLower(lo: nat, hi: nat)
    ensures Lower(TextOf(lo, hi)) == TextOf(lo, hi)
    decreases hi - lo
  {
    if lo >= hi {
    } else {
      TextIsLower(lo + 1, hi);
      var rest := TextOf(lo + 1, hi);
      assert forall k :: 0 <= k < |rest| ==> LowerChar(rest[k]) == Lower(rest)[k] == rest[k];
    }
  }

  lemma {:induction false} TextHasWords(lo: nat, hi: nat, w: string)
    ensures IsWordOf(TextOf(lo, hi), w) <==> w in Words(lo, hi)
    decreases hi - lo
  {
    if lo >= hi {
    } else {
      TextHasWords(lo + 1, hi, w);
      WordsAroundSpace(Word(lo), TextOf(lo + 1, hi), ' ', w);
      assert Words(lo, hi) == {Word(lo)} + Words(lo + 1, hi);
    }
  }

  lemma WordsOfText(lo: nat, hi: nat)
    ensures WordSet(TextOf(lo, hi)) == Words(lo, hi)
  {
    TextIsLower(lo, hi);
    var text := TextOf(lo, hi);
    assert [] + text == text;
    forall w: string
      ensures w in WordSet(text) <==> w in Words(lo, hi)
    {
      SplitYieldsWords(text, [], w);
      TextHasWords(lo, hi, w);
    }
  }

  lemma {:induction false} WordsCard(lo: nat, hi: nat)
    requires lo <= hi
    ensures |Words(lo, hi)| == hi - lo
    decreases hi - lo
  {
    if lo == hi {
    } else {
      WordsCard(lo + 1, hi);
      assert Words(lo, hi) == {Word(lo)} + Words(lo + 1, hi);
      assert forall n :: lo + 1 <= n < hi ==> |Word(n)| != |Word(lo)|;
    }
  }

  lemma RangesOverlap(mid: nat, hi: nat, end: nat)
    requires mid < hi <= end
    ensures Words(0, hi) != {} && Words(mid, end) != {}
    ensures |Words(0, hi) * Words(mid, end)| == hi - mid && |Words(0, hi) + Words(mid, end)| == end
  {
    var a, b := Words(0, hi), Words(mid, end);
    WordsCard(mid, hi);
    WordsCard(0, end);
    assert a * b == Words(mid, hi) by {
      forall w | w in a && w in b
        ensures w in Words(mid, hi)
      {
        var m :| 0 <= m < hi && w == Word(m);
        var n :| mid <= n < end && w == Word(n);
        assert |Word(m)| == |Word(n)|;
      }
    }
    assert a + b == Words(0, end);
    assert Word(mid) in a && Word(mid) in b;
  }

  lemma Quotient(p: nat, n: nat) returns (q: real)
    requires n > 0
    ensures q == p as real / n as real
    ensures q * n as real == p as real
  {
    q := p as real / n as real;
  }

  lemma TextsOverlap(mid: nat, hi: nat, end: nat) returns (s: real)
    requires mid < hi <= end
    ensures s == Similarity(TextOf(0, hi), TextOf(mid, end))
    ensures s * end as real == (hi - mid) as real
  {
    WordsOfText(0, hi);
    WordsOfText(mid, end);
    RangesOverlap(mid, hi, end);
    s := Quotient(hi - mid, end);
  }

  lemma SizeFor(eps: real) returns (m: nat)
    requires eps > 0.0
    ensures eps * m as real >= 1.0
  {
    m := (1.0 / eps).Floor + 1;
    assert 1.0 / eps * eps == 1.0;
    assert m as real >= 1.0 / eps;
  }

  lemma AboveThreshold(s: real, x: real)
    requires 0.0 <= x && s * (10.0 * x + 1.0) == 7.0 * x + 1.0
    ensures s > JACCARD_DEDUP_THRESHOLD
  {}

  lemma BelowBound(s: real, x: real, eps: real)
    requires 0.0 <= x && 0.0 < eps && eps * x >= 1.0 && s * (10.0 * x + 1.0) == 4.0 * x + 1.0
    ensures s < 0.4 + eps
  {
    assert (s - 0.4) * (10.0 * x + 1.0) == 0.6;
    assert eps * (10.0 * x + 1.0) == 10.0 * (eps * x) + eps > 0.6;
    SmallerFactor(s - 0.4, eps, 10.0 * x + 1.0);
  }

  lemma SmallerFactor(x: real, y: real, n: real)
    requires 0.0 < n && x * n < y * n
    ensures x < y
  {}

  lemma LinkedTexts(m: nat)
    ensures Similarity(TextOf(0, 7 * m + 1), TextOf(0, 10 * m + 1)) > JACCARD_DEDUP_THRESHOLD
  {
    var s := TextsOverlap(0, 7 * m + 1, 10 * m + 1);
    AboveThreshold(s, m as real);
  }

  lemma LinkedBack(m: nat)
    ensures Similarity(TextOf(0, 10 * m + 1), TextOf(3 * m, 10 * m + 1)) > JACCARD_DEDUP_THRESHOLD
  {
    var s := TextsOverlap(3 * m, 10 * m + 1, 10 * m + 1);
    AboveThreshold(s, m as real);
  }

  lemma EndsApart(m: nat, eps: real)
    requires eps > 0.0 && eps * m as real >= 1.0
    ensures Similarity(TextOf(0, 7 * m + 1), TextOf(3 * m, 10 * m + 1)) < 0.4 + eps
  {
    var s := TextsOverlap(3 * m, 7 * m + 1, 10 * m + 1);
    BelowBound(s, m as real, eps);
  }

  /** The 0.4 cannot be improved: for every eps there are texts a, b, c whose two
      links exceed the threshold and whose ends overlap by less than 0.4 + eps. In
      particular (eps = 0.3) being linked is not transitive. */
  lemma TwoLinkBoundIsTight(eps: real) returns (a: string, b: string, c: string)
    requires eps > 0.0
    ensures Similarity(a, b) > JACCARD_DEDUP_THRESHOLD && Similarity(b, c) > JACCARD_DEDUP_THRESHOLD
    ensures Similarity(a, c) < 0.4 + eps
  {
    var m := SizeFor(eps);
    a, b, c := TextOf(0, 7 * m + 1), TextOf(0, 10 * m + 1), TextOf(3 * m, 10 * m + 1);
    LinkedTexts(m);
    LinkedBack(m);
    EndsApart(m, eps);
  }
}
