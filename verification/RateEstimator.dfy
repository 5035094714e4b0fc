/**
 The rate estimator get_ratio: the samples of a short window are sorted, the pair of them that spans the
 most samples over the least spread is searched for, and the samples it spans are averaged.
 */
module RateEstimator {

  /* ---------- sorting ---------- */

  ghost predicate Sorted(s: seq<real>) {
    forall i, j :: 0 <= i < j < |s| ==> s[i] <= s[j]
  }

  function Insert(x: real, s: seq<real>): (r: seq<real>)
    ensures |r| == |s| + 1
  {
    if s == [] || x <= s[0] then [x] + s else [s[0]] + Insert(x, s[1..])
  }

  // std::sort
  function Sort(s: seq<real>): (r: seq<real>)
    ensures |r| == |s|
  {
    if s == [] then [] else Insert(s[0], Sort(s[1..]))
  }

  lemma {:induction false} InsertPermutes(x: real, s: seq<real>)
    ensures multiset(Insert(x, s)) == multiset{x} + multiset(s)
  {
    if s != [] && x > s[0] {
      InsertPermutes(x, s[1..]);
      assert s == [s[0]] + s[1..];
    }
  }

  lemma {:induction false} InsertAbove(x: real, s: seq<real>, m: real)
    requires m <= x && forall i :: 0 <= i < |s| ==> m <= s[i]
    ensures forall i :: 0 <= i < |Insert(x, s)| ==> m <= Insert(x, s)[i]
  {
    if s != [] && x > s[0] {
      InsertAbove(x, s[1..], m);
    }
  }

  lemma {:induction false} InsertSorts(x: real, s: seq<real>)
    requires Sorted(s)
    ensures Sorted(Insert(x, s))
  {
    if s != [] && x > s[0] {
      InsertSorts(x, s[1..]);
      InsertAbove(x, s[1..], s[0]);
    }
  }

  lemma {:induction false} SortSorts(s: seq<real>)
    ensures Sorted(Sort(s)) && multiset(Sort(s)) == multiset(s)
  {
    if s != [] {
      SortSorts(s[1..]);
      InsertSorts(s[0], Sort(s[1..]));
      InsertPermutes(s[0], Sort(s[1..]));
      assert s == [s[0]] + s[1..];
    }
  }

  // Sorted sequences with the same elements are equal.
  lemma {:induction false} SortedUnique(a: seq<real>, b: seq<real>)
    requires Sorted(a) && Sorted(b) && multiset(a) == multiset(b)
    ensures a == b
  {
    assert |a| == |multiset(a)| == |multiset(b)| == |b|;
    if a != [] {
      SameHead(a, b);
      TailElements(a);
      TailElements(b);
      SortedUnique(a[1..], b[1..]);
      assert a == [a[0]] + a[1..] && b == [b[0]] + b[1..];
    }
  }

  lemma SameHead(a: seq<real>, b: seq<real>)
    requires Sorted(a) && Sorted(b) && multiset(a) == multiset(b) && a != [] && b != []
    ensures a[0] == b[0]
  {
    assert b[0] in multiset(a) && a[0] in multiset(b);
    HeadIsLeast(a, b[0]);
    HeadIsLeast(b, a[0]);
  }

  lemma HeadIsLeast(s: seq<real>, x: real)
    requires Sorted(s) && x in multiset(s)
    ensures s != [] && s[0] <= x
  {
    var i :| 0 <= i < |s| && s[i] == x;
  }

  lemma TailElements(s: seq<real>)
    requires s != []
    ensures multiset(s[1..]) == multiset(s) - multiset{s[0]}
  {
    assert s == [s[0]] + s[1..];
  }

  /* ---------- what the search is for ---------- */

  function Sum(s: seq<real>): real {
    if s == [] then 0.0 else s[0] + Sum(s[1..])
  }

  function Mean(s: seq<real>): real
    requires s != []
  {
    Sum(s) / |s| as real
  }

  // The average distance of neighbouring samples.
  function MinGap(s: seq<real>): real
    requires |s| >= 2
  {
    (s[|s|-1] - s[0]) / (|s| - 1) as real
  }

  predicate Qualifies(s: seq<real>, i: int, j: int)
    requires |s| >= 2
  {
    0 <= i < j < |s| && s[j] - s[i] >= MinGap(s)
  }

  // Samples spanned, squared, over their spread.
  function Score(s: seq<real>, i: int, j: int): real
    requires 0 <= i < j < |s| && s[j] - s[i] != 0.0
  {
    ((j - i + 1) * (j - i + 1)) as real / (s[j] - s[i])
  }

  predicate Before(i: int, j: int, l: int, r: int) {
    i < l || (i == l && j < r)
  }

  // `l` and `r` are the lexicographically first among the qualifying pairs with the highest score.
  ghost predicate FirstBest(s: seq<real>, l: int, r: int) {
    && |s| >= 2 && MinGap(s) > 0.0
    && Qualifies(s, l, r)
    && (forall i, j :: Qualifies(s, i, j) ==> Score(s, i, j) <= Score(s, l, r))
    && (forall i, j :: Qualifies(s, i, j) && Before(i, j, l, r) ==> Score(s, i, j) < Score(s, l, r))
  }

  // All samples equal: the search is skipped.
  predicate Flat(s: seq<real>)
    requires s != []
  {
    s[|s|-1] == s[0]
  }

  lemma Quotient(d: real, n: real)
    requires d >= 0.0 && n >= 1.0
    ensures 0.0 <= d / n <= d && (d / n == 0.0 <==> d == 0.0)
  {
    var x := d / n;
    assert x * n == d;
    assert x < 0.0 ==> x * n < 0.0;
    assert x * (n - 1.0) == d - x;
    assert x >= 0.0 ==> x * (n - 1.0) >= 0.0;
  }

  lemma GapPositive(s: seq<real>)
    requires |s| >= 2 && Sorted(s)
    ensures 0.0 <= MinGap(s) <= s[|s|-1] - s[0] && (MinGap(s) == 0.0 <==> Flat(s))
  {
    Quotient(s[|s|-1] - s[0], (|s| - 1) as real);
  }

  // `v` is the estimate of the sorted samples `s`.
  ghost predicate IsBestMean(s: seq<real>, v: real)
    requires s != []
  {
    if Flat(s) then v == s[0] else exists l, r :: FirstBest(s, l, r) && v == Mean(s[l..r + 1])
  }

  // `v` is the estimate of the samples `q`.
  ghost predicate IsEstimate(q: seq<real>, v: real)
    requires q != []
  {
    IsBestMean(Sort(q), v)
  }

  // The widest pair always qualifies, so the search finds something.
  lemma WidestQualifies(s: seq<real>)
    requires |s| >= 2 && Sorted(s)
    ensures Qualifies(s, 0, |s| - 1)
  {
    GapPositive(s);
  }

  /* ---------- get_ratio ---------- */

  // The state of the search once all pairs before (i, j) have been looked at.
  ghost predicate Searched(s: seq<real>, i: int, j: int, f: real, l: int, r: int)
    requires |s| >= 2 && MinGap(s) > 0.0
  {
    if f == -1.0 then forall a, b :: Qualifies(s, a, b) ==> !Before(a, b, i, j)
    else
      && Qualifies(s, l, r) && Before(l, r, i, j) && f == Score(s, l, r)
      && (forall a, b :: Qualifies(s, a, b) && Before(a, b, i, j) ==> Score(s, a, b) <= f)
      && (forall a, b :: Qualifies(s, a, b) && Before(a, b, l, r) ==> Score(s, a, b) < f)
  }

  method GetRatio(q: seq<real>) returns (v: real)
    requires q != []
    ensures IsEstimate(q, v)
  {
    var sample := Sort(q);
    SortSorts(q);
    var sz := |sample|;
    if sz == 1 {
      return sample[0];  // the gap is 0/0: no test on it succeeds and the one sample is averaged
    }
    var gap := (sample[sz - 1] - sample[0]) / (sz - 1) as real;
    GapPositive(sample);
    if gap == 0.0 {
      return sample[0];
    }
    var l, r := Search(sample, gap);
    v := Average(sample, l, r);
  }

  // The inner loop: all pairs that start at `i`.
  method SearchRow(sample: seq<real>, gap: real, i: nat, f0: real, l0: int, r0: int)
    returns (f: real, l: int, r: int)
    requires |sample| >= 2 && gap == MinGap(sample) > 0.0 && i < |sample|
    requires Searched(sample, i, 0, f0, l0, r0)
    ensures Searched(sample, i + 1, 0, f, l, r)
  {
    f, l, r := f0, l0, r0;
    for j := i + 1 to |sample|
      invariant Searched(sample, i, j, f, l, r) == true
    {
      if sample[j] - sample[i] >= gap {
        var score := ((j - i + 1) * (j - i + 1)) as real / (sample[j] - sample[i]);
        ScorePositive(sample, i, j);
        SearchMore(sample, i, j, f, l, r);
        if score > f {
          f, l, r := score, i, j;
        }
      }
    }
  }

  // The outer loop.
  method Search(sample: seq<real>, gap: real) returns (l: int, r: int)
    requires |sample| >= 2 && Sorted(sample) && gap == MinGap(sample) > 0.0
    ensures FirstBest(sample, l, r)
  {
    var sz := |sample|;
    var f := -1.0;
    l, r := 0, sz - 1;
    for i := 0 to sz
      invariant Searched(sample, i, 0, f, l, r)
    {
      f, l, r := SearchRow(sample, gap, i, f, l, r);
    }
    WidestQualifies(sample);
    SearchEnds(sample, f, l, r);
  }

  method Average(sample: seq<real>, l: nat, r: nat) returns (v: real)
    requires l <= r < |sample|
    ensures v == Mean(sample[l..r + 1])
  {
    var tot := 0.0;
    for i := l to r + 1
      invariant tot == Sum(sample[l..i])
    {
      assert sample[l..i + 1] == sample[l..i] + [sample[i]];
      SumConcat(sample[l..i], [sample[i]]);
      tot := tot + sample[i];
    }
    v := tot / (r - l + 1) as real;
  }

  // A qualifying pair takes over exactly when it beats the best score so far.
  lemma SearchMore(s: seq<real>, i: int, j: int, f: real, l: int, r: int)
    requires |s| >= 2 && MinGap(s) > 0.0 && Qualifies(s, i, j) && Score(s, i, j) > 0.0
    requires Searched(s, i, j, f, l, r)
    ensures if Score(s, i, j) > f then Searched(s, i, j + 1, Score(s, i, j), i, j)
            else Searched(s, i, j + 1, f, l, r)
  {
  }

  lemma SearchEnds(s: seq<real>, f: real, l: int, r: int)
    requires |s| >= 2 && MinGap(s) > 0.0 && Qualifies(s, 0, |s| - 1)
    requires Searched(s, |s|, 0, f, l, r)
    ensures FirstBest(s, l, r)
  {
    assert Before(0, |s| - 1, |s|, 0);
    forall a, b | Qualifies(s, a, b) ensures Before(a, b, |s|, 0) {
    }
  }

  lemma ScorePositive(s: seq<real>, i: int, j: int)
    requires |s| >= 2 && MinGap(s) > 0.0 && Qualifies(s, i, j)
    ensures Score(s, i, j) > 0.0
  {
    var n, d := ((j - i + 1) * (j - i + 1)) as real, s[j] - s[i];
    assert (j - i + 1) * (j - i + 1) >= 1;
    assert Score(s, i, j) * d == n;
  }

  lemma {:induction false} SumConcat(a: seq<real>, b: seq<real>)
    ensures Sum(a + b) == Sum(a) + Sum(b)
  {
    if a == [] {
      assert a + b == b;
    } else {
      assert (a + b)[1..] == a[1..] + b;
      SumConcat(a[1..], b);
    }
  }

  /* ---------- the best pair, written out ---------- */

  lemma Products(a: real, x: real, b: real, y: real)
    requires x > 0.0 && y > 0.0
    ensures a / x <= b / y <==> a * y <= b * x
    ensures a / x < b / y <==> a * y < b * x
  {
    var u, v := a / x, b / y;
    assert u * x == a && v * y == b && x * y > 0.0;
    assert a * y == u * (x * y) && b * x == v * (x * y);
    assert u < v ==> u * (x * y) < v * (x * y);
    assert v < u ==> v * (x * y) < u * (x * y);
  }

  // Samples `i` and `j` are at least as far apart as neighbouring ones are on average.
  predicate Apart(s: seq<real>, i: int, j: int) {
    0 <= i < j < |s| && (s[j] - s[i]) * (|s| - 1) as real >= s[|s|-1] - s[0]
  }

  function Square(n: int): int {
    n * n
  }

  // The pair (l, r) spans, squared, no fewer samples for its spread than the pair (i, j), or more.
  predicate NoWorse(s: seq<real>, l: int, r: int, i: int, j: int)
    requires 0 <= l < r < |s| && 0 <= i < j < |s|
  {
    Square(j - i + 1) as real * (s[r] - s[l]) <= Square(r - l + 1) as real * (s[j] - s[i])
  }

  predicate Better(s: seq<real>, l: int, r: int, i: int, j: int)
    requires 0 <= l < r < |s| && 0 <= i < j < |s|
  {
    Square(j - i + 1) as real * (s[r] - s[l]) < Square(r - l + 1) as real * (s[j] - s[i])
  }

  // Of all pairs that are apart, (l, r) is the first that no other one betters.
  ghost predicate Unbeaten(s: seq<real>, l: int, r: int) {
    && Apart(s, l, r)
    && (forall i, j :: Apart(s, i, j) ==> NoWorse(s, l, r, i, j))
    && (forall i, j :: Apart(s, i, j) && Before(i, j, l, r) ==> Better(s, l, r, i, j))
  }

  lemma ApartIff(s: seq<real>, i: int, j: int)
    requires |s| >= 2
    ensures Qualifies(s, i, j) <==> Apart(s, i, j)
  {
    if 0 <= i < j < |s| {
      Products(s[|s|-1] - s[0], (|s| - 1) as real, s[j] - s[i], 1.0);
    }
  }

  lemma ScoresCompare(s: seq<real>, l: int, r: int, i: int, j: int)
    requires |s| >= 2 && MinGap(s) > 0.0 && Qualifies(s, l, r) && Qualifies(s, i, j)
    ensures Score(s, i, j) <= Score(s, l, r) <==> NoWorse(s, l, r, i, j)
    ensures Score(s, i, j) < Score(s, l, r) <==> Better(s, l, r, i, j)
  {
    Products(Square(j - i + 1) as real, s[j] - s[i], Square(r - l + 1) as real, s[r] - s[l]);
  }

  // So the search is told without quotients.
  lemma FirstBestIff(s: seq<real>, l: int, r: int)
    requires |s| >= 2 && Sorted(s) && !Flat(s)
    ensures FirstBest(s, l, r) <==> Unbeaten(s, l, r)
  {
    GapPositive(s);
    ApartIff(s, l, r);
    forall i, j ensures Qualifies(s, i, j) <==> Apart(s, i, j) {
      ApartIff(s, i, j);
    }
    if Apart(s, l, r) {
      forall i, j | Apart(s, i, j)
        ensures Score(s, i, j) <= Score(s, l, r) <==> NoWorse(s, l, r, i, j)
        ensures Score(s, i, j) < Score(s, l, r) <==> Better(s, l, r, i, j)
      {
        ScoresCompare(s, l, r, i, j);
      }
    }
  }

  /* ---------- evenly spaced samples ---------- */

  function Line(a: real, d: real, n: nat): (r: seq<real>)
    ensures |r| == n && forall i :: 0 <= i < n ==> r[i] == a + d * i as real
  {
    seq(n, i => a + d * i as real)
  }

  lemma SquareTimes(m: int, n: int)
    ensures Square(m + 1) * n == (m * n) * m + 2 * (m * n) + n
  {
  }

  lemma {:induction false} TimesGrows(m: int, n: int)
    requires 1 <= m && 0 <= n
    ensures n <= m * n && (m >= 2 && n > 0 ==> n < m * n)
  {
    if m >= 2 {
      TimesGrows(m - 1, n);
      assert m * n == (m - 1) * n + n;
    }
  }

  lemma Outgrow(k: int, m: int, n: int)
    requires 1 <= m <= n <= k
    ensures k * m + n <= k * n + m && (m < n ==> k * m + n < k * n + m)
  {
    TimesGrows(k, n - m);
    Distributes(k, m, n);
  }

  lemma Distributes(k: int, m: int, n: int)
    ensures k * (n - m) == k * n - k * m
  {
  }

  // The more of them are spanned the better.
  lemma SquaresOutgrow(m: int, n: int)
    requires 1 <= m <= n
    ensures Square(m + 1) * n <= Square(n + 1) * m
    ensures m < n ==> Square(m + 1) * n < Square(n + 1) * m
  {
    SquareTimes(m, n);
    SquareTimes(n, m);
    TimesGrows(m, n);
    Outgrow(m * n, m, n);
  }

  lemma WiderIsBetter(d: real, m: int, n: int, x: real, y: real)
    requires d > 0.0 && 1 <= m <= n && x == d * n as real && y == d * m as real
    ensures Square(m + 1) as real * x <= Square(n + 1) as real * y
    ensures m < n ==> Square(m + 1) as real * x < Square(n + 1) as real * y
  {
    SquaresOutgrow(m, n);
    Commuted(d, Square(m + 1), n);
    Commuted(d, Square(n + 1), m);
    RescaleOrder(d, 0.0, (Square(m + 1) * n) as real, (Square(n + 1) * m) as real);
    RescaleOrder(d, 0.0, (Square(n + 1) * m) as real, (Square(m + 1) * n) as real);
  }

  lemma Commuted(d: real, x: int, y: int)
    ensures x as real * (d * y as real) == Scale(d, 0.0, (x * y) as real)
  {
    assert (x * y) as real == x as real * y as real;
  }

  lemma LineSpread(a: real, d: real, n: nat, i: int, j: int)
    requires d > 0.0 && 0 <= i < j < n
    ensures Line(a, d, n)[j] - Line(a, d, n)[i] == d * (j - i) as real > 0.0
  {
    assert d * j as real - d * i as real == d * (j as real - i as real);
  }

  lemma LineSorted(a: real, d: real, n: nat)
    requires d > 0.0 && n >= 2
    ensures Sorted(Line(a, d, n)) && !Flat(Line(a, d, n)) && Apart(Line(a, d, n), 0, n - 1)
  {
    forall i, j | 0 <= i < j < n ensures Line(a, d, n)[i] < Line(a, d, n)[j] {
      LineSpread(a, d, n, i, j);
    }
    WidestQualifies(Line(a, d, n));
    ApartIff(Line(a, d, n), 0, n - 1);
  }

  lemma Compared(s: seq<real>, l: int, r: int, i: int, j: int, x: real, y: real)
    requires 0 <= l < r < |s| && 0 <= i < j < |s| && x == s[r] - s[l] && y == s[j] - s[i]
    ensures NoWorse(s, l, r, i, j) <==> Square(j - i + 1) as real * x <= Square(r - l + 1) as real * y
    ensures Better(s, l, r, i, j) <==> Square(j - i + 1) as real * x < Square(r - l + 1) as real * y
  {
  }

  lemma LineNoWorse(a: real, d: real, n: nat, i: int, j: int)
    requires d > 0.0 && 0 <= i < j < n
    ensures NoWorse(Line(a, d, n), 0, n - 1, i, j) == true
    ensures j - i < n - 1 ==> Better(Line(a, d, n), 0, n - 1, i, j) == true
  {
    LineSpread(a, d, n, i, j);
    LineSpread(a, d, n, 0, n - 1);
    SpreadNoWorse(Line(a, d, n), d, i, j);
  }

  lemma SpreadNoWorse(s: seq<real>, d: real, i: int, j: int)
    requires d > 0.0 && 0 <= i < j < |s|
    requires s[|s|-1] - s[0] == d * (|s| - 1) as real && s[j] - s[i] == d * (j - i) as real
    ensures NoWorse(s, 0, |s| - 1, i, j) == true
    ensures j - i < |s| - 1 ==> Better(s, 0, |s| - 1, i, j) == true
  {
    var x, y := s[|s|-1] - s[0], s[j] - s[i];
    WiderIsBetter(d, j - i, |s| - 1, x, y);
    Compared(s, 0, |s| - 1, i, j, x, y);
  }

  lemma LineUnbeaten(a: real, d: real, n: nat)
    requires d > 0.0 && n >= 2
    ensures Unbeaten(Line(a, d, n), 0, n - 1)
  {
    LineSorted(a, d, n);
    forall i, j | Apart(Line(a, d, n), i, j)
      ensures NoWorse(Line(a, d, n), 0, n - 1, i, j) == true
      ensures Before(i, j, 0, n - 1) ==> Better(Line(a, d, n), 0, n - 1, i, j) == true
    {
      LineNoWorse(a, d, n, i, j);
    }
  }

  function Middle(a: real, d: real, n: nat): real {
    a + d * (n as real - 1.0) / 2.0
  }

  lemma MiddleMoves(a: real, d: real, m: real)
    ensures m * (a + d * (m - 1.0) / 2.0) + (a + d * m) == (m + 1.0) * (a + d * m / 2.0)
  {
  }

  lemma LineMore(a: real, d: real, n: nat)
    requires n > 0
    ensures Sum(Line(a, d, n)) == Sum(Line(a, d, n - 1)) + (a + d * (n as real - 1.0))
  {
    var s := Line(a, d, n);
    assert s[..n - 1] == Line(a, d, n - 1) && s == s[..n - 1] + [s[n - 1]];
    SumConcat(s[..n - 1], [s[n - 1]]);
    assert [s[n - 1]][1..] == [];
  }

  lemma {:induction false} LineSum(a: real, d: real, n: nat)
    ensures Sum(Line(a, d, n)) == n as real * Middle(a, d, n)
  {
    if n > 0 {
      LineMore(a, d, n);
      LineSum(a, d, n - 1);
      MiddleMoves(a, d, n as real - 1.0);
    }
  }

  // Evenly spaced samples, in whatever order they come, are averaged whole.
  lemma EvenlySpaced(q: seq<real>, v: real, a: real, d: real, n: nat)
    requires d > 0.0 && n >= 2 && multiset(q) == multiset(Line(a, d, n)) && q != [] && IsEstimate(q, v)
    ensures v == Middle(a, d, n)
  {
    LineSorted(a, d, n);
    SortSorts(q);
    SortedUnique(Sort(q), Line(a, d, n));
    LineMean(Line(a, d, n), v, a, d, n);
  }

  lemma LineMean(s: seq<real>, v: real, a: real, d: real, n: nat)
    requires d > 0.0 && n >= 2 && s == Line(a, d, n) && IsBestMean(s, v)
    ensures v == Middle(a, d, n)
  {
    LineBest(a, d, n);
    LineSum(a, d, n);
    WholeMean(s, v, n as real, Middle(a, d, n));
  }

  lemma LineBest(a: real, d: real, n: nat)
    requires d > 0.0 && n >= 2
    ensures FirstBest(Line(a, d, n), 0, n - 1) == true
  {
    LineSorted(a, d, n);
    LineUnbeaten(a, d, n);
    FirstBestIff(Line(a, d, n), 0, n - 1);
  }

  lemma WholeMean(s: seq<real>, v: real, n: real, x: real)
    requires FirstBest(s, 0, |s| - 1) && s != [] && IsBestMean(s, v)
    requires n == |s| as real && Sum(s) == n * x
    ensures v == x
  {
    assert s[0..|s| - 1 + 1] == s;
    MeanOfBest(s, 0, |s| - 1);
    BestMeanUnique(s, v, Mean(s));
    MeanIs(s, n, x);
  }

  lemma MeanIs(s: seq<real>, n: real, x: real)
    requires s != [] && n == |s| as real && Sum(s) == n * x
    ensures Mean(s) == x
  {
    assert Mean(s) * n == Sum(s);
    assert (Mean(s) - x) * n == 0.0;
  }

  /* ---------- what the estimate depends on ---------- */

  lemma FirstBestUnique(s: seq<real>, l: int, r: int, l': int, r': int)
    requires FirstBest(s, l, r) && FirstBest(s, l', r')
    ensures l == l' && r == r'
  {
    assert Qualifies(s, l, r) && Qualifies(s, l', r');
    assert !Before(l, r, l', r') && !Before(l', r', l, r);
  }

  // The samples determine the estimate.
  lemma EstimateUnique(q: seq<real>, v: real, w: real)
    requires q != [] && IsEstimate(q, v) && IsEstimate(q, w)
    ensures v == w
  {
    BestMeanUnique(Sort(q), v, w);
  }

  lemma BestMeanUnique(s: seq<real>, v: real, w: real)
    requires s != [] && IsBestMean(s, v) && IsBestMean(s, w)
    ensures v == w
  {
    if !Flat(s) {
      var l, r :| FirstBest(s, l, r) && v == Mean(s[l..r + 1]);
      var l', r' :| FirstBest(s, l', r') && w == Mean(s[l'..r' + 1]);
      FirstBestUnique(s, l, r, l', r');
    }
  }

  // Their order does not matter.
  lemma OrderIrrelevant(q: seq<real>, q': seq<real>, v: real, w: real)
    requires q != [] && multiset(q) == multiset(q') && |q'| > 0
    requires IsEstimate(q, v) && IsEstimate(q', w)
    ensures v == w
  {
    SortSorts(q);
    SortSorts(q');
    SortedUnique(Sort(q), Sort(q'));
    EstimateUnique(q, v, w);
  }

  // A change of unit and origin.
  function Scale(k: real, c: real, x: real): real {
    k * x + c
  }

  function Rescale(k: real, c: real, s: seq<real>): (r: seq<real>)
    ensures |r| == |s| && forall i :: 0 <= i < |s| ==> r[i] == Scale(k, c, s[i])
  {
    seq(|s|, i requires 0 <= i < |s| => Scale(k, c, s[i]))
  }

  lemma RescaleTail(k: real, c: real, s: seq<real>)
    requires s != []
    ensures Rescale(k, c, s) == [Scale(k, c, s[0])] + Rescale(k, c, s[1..])
    ensures Rescale(k, c, s)[1..] == Rescale(k, c, s[1..])
  {
  }

  lemma RescaleOrder(k: real, c: real, x: real, y: real)
    requires k > 0.0
    ensures x <= y <==> Scale(k, c, x) <= Scale(k, c, y)
  {
    if x <= y {
      assert k * (y - x) >= 0.0;
    } else {
      assert k * (x - y) > 0.0;
    }
  }

  lemma {:induction false} InsertRescale(k: real, c: real, x: real, s: seq<real>)
    requires k > 0.0
    ensures Insert(Scale(k, c, x), Rescale(k, c, s)) == Rescale(k, c, Insert(x, s))
  {
    if s == [] {
      assert Rescale(k, c, [x]) == [Scale(k, c, x)];
    } else {
      RescaleOrder(k, c, x, s[0]);
      RescaleTail(k, c, s);
      RescaleTail(k, c, Insert(x, s));
      if x > s[0] {
        InsertRescale(k, c, x, s[1..]);
        assert Insert(x, s)[1..] == Insert(x, s[1..]);
      } else {
        assert Insert(x, s)[1..] == s;
      }
    }
  }

  lemma {:induction false} SortRescale(k: real, c: real, s: seq<real>)
    requires k > 0.0
    ensures Sort(Rescale(k, c, s)) == Rescale(k, c, Sort(s))
  {
    if s != [] {
      RescaleTail(k, c, s);
      SortRescale(k, c, s[1..]);
      InsertRescale(k, c, s[0], Sort(s[1..]));
    }
  }

  // x / (k * g) is (x / g) / k.
  lemma DivideBoth(x: real, k: real, g: real)
    requires k > 0.0 && g > 0.0
    ensures k * g > 0.0 && k * (x / (k * g)) == x / g
  {
    var y := x / (k * g);
    assert y * (k * g) == x;
    assert (k * y) * g == x;
  }

  lemma GapRescale(k: real, c: real, s: seq<real>)
    requires k > 0.0 && |s| >= 2
    ensures MinGap(Rescale(k, c, s)) == k * MinGap(s)
  {
    var d, n := s[|s|-1] - s[0], (|s| - 1) as real;
    assert MinGap(s) * n == d;
    var t := Rescale(k, c, s);
    assert t[|t|-1] - t[0] == k * d;
    assert (k * MinGap(s)) * n == k * d;
  }

  lemma QualifiesRescale(k: real, c: real, s: seq<real>, i: int, j: int)
    requires k > 0.0 && |s| >= 2
    ensures Qualifies(Rescale(k, c, s), i, j) <==> Qualifies(s, i, j)
  {
    GapRescale(k, c, s);
    if 0 <= i < j < |s| {
      var t := Rescale(k, c, s);
      assert t[j] - t[i] == k * (s[j] - s[i]);
      RescaleOrder(k, 0.0, MinGap(s), s[j] - s[i]);
    }
  }

  lemma ScoreRescale(k: real, c: real, s: seq<real>, i: int, j: int)
    requires k > 0.0 && |s| >= 2 && MinGap(s) > 0.0 && Qualifies(s, i, j)
    ensures var t := Rescale(k, c, s);
            t[j] - t[i] != 0.0 && k * Score(t, i, j) == Score(s, i, j)
  {
    var t := Rescale(k, c, s);
    assert t[j] - t[i] == k * (s[j] - s[i]);
    DivideBoth(((j - i + 1) * (j - i + 1)) as real, k, s[j] - s[i]);
  }

  lemma FirstBestRescale(k: real, c: real, s: seq<real>, l: int, r: int)
    requires k > 0.0 && FirstBest(s, l, r)
    ensures FirstBest(Rescale(k, c, s), l, r)
  {
    var t := Rescale(k, c, s);
    GapRescale(k, c, s);
    RescaleOrder(k, 0.0, MinGap(s), 0.0);
    QualifiesRescale(k, c, s, l, r);
    ScoreRescale(k, c, s, l, r);
    forall i, j | Qualifies(t, i, j)
      ensures Score(t, i, j) <= Score(t, l, r)
      ensures Before(i, j, l, r) ==> Score(t, i, j) < Score(t, l, r)
    {
      QualifiesRescale(k, c, s, i, j);
      ScoreRescale(k, c, s, i, j);
      RescaleOrder(k, 0.0, Score(t, i, j), Score(t, l, r));
      RescaleOrder(k, 0.0, Score(t, l, r), Score(t, i, j));
    }
  }

  lemma {:induction false} SumRescale(k: real, c: real, s: seq<real>)
    ensures Sum(Rescale(k, c, s)) == k * Sum(s) + c * |s| as real
  {
    if s != [] {
      var n := (|s| - 1) as real;
      RescaleTail(k, c, s);
      SumRescale(k, c, s[1..]);
      assert k * (s[0] + Sum(s[1..])) == k * s[0] + k * Sum(s[1..]);
      assert c * (n + 1.0) == c * n + c;
    }
  }

  lemma MeanRescale(k: real, c: real, s: seq<real>)
    requires s != []
    ensures Mean(Rescale(k, c, s)) == Scale(k, c, Mean(s))
  {
    var n := |s| as real;
    SumRescale(k, c, s);
    assert Mean(s) * n == Sum(s);
    assert (k * Mean(s) + c) * n == k * Sum(s) + c * n;
  }

  // The mean is the number from which the deviations of all samples cancel.
  lemma MeanBalances(s: seq<real>)
    requires s != []
    ensures Sum(Rescale(1.0, -Mean(s), s)) == 0.0
  {
    SumRescale(1.0, -Mean(s), s);
    assert Mean(s) * |s| as real == Sum(s);
  }

  // Equivariance: adding a constant to all samples, or multiplying them all by a positive one, does the
  // same to the estimate.
  lemma EstimateRescale(k: real, c: real, q: seq<real>, v: real)
    requires k > 0.0 && q != [] && IsEstimate(q, v)
    ensures IsEstimate(Rescale(k, c, q), Scale(k, c, v))
  {
    SortRescale(k, c, q);
    BestMeanRescale(k, c, Sort(q), v);
  }

  lemma BestMeanRescale(k: real, c: real, s: seq<real>, v: real)
    requires k > 0.0 && s != [] && IsBestMean(s, v)
    ensures IsBestMean(Rescale(k, c, s), Scale(k, c, v))
  {
    var t := Rescale(k, c, s);
    if Flat(s) {
      assert Flat(t);
    } else {
      var l, r :| FirstBest(s, l, r) && v == Mean(s[l..r + 1]);
      FirstBestRescale(k, c, s, l, r);
      MeanOfBest(t, l, r);
      assert t[l..r + 1] == Rescale(k, c, s[l..r + 1]);
      MeanRescale(k, c, s[l..r + 1]);
    }
  }

  lemma MeanOfBest(s: seq<real>, l: int, r: int)
    requires FirstBest(s, l, r)
    ensures s != [] && IsBestMean(s, Mean(s[l..r + 1]))
  {
    var d, n := s[|s|-1] - s[0], (|s| - 1) as real;
    assert MinGap(s) * n == d;
    assert !Flat(s);
  }

  // The estimate lies between the least and the greatest sample.
  lemma EstimateWithin(q: seq<real>, v: real, lo: real, hi: real)
    requires q != [] && IsEstimate(q, v)
    requires forall i :: 0 <= i < |q| ==> lo <= q[i] <= hi
    ensures lo <= v <= hi
  {
    var s := Sort(q);
    SortSorts(q);
    forall i | 0 <= i < |s| ensures lo <= s[i] <= hi {
      assert s[i] in multiset(q);
    }
    if !Flat(s) {
      var l, r :| FirstBest(s, l, r) && v == Mean(s[l..r + 1]);
      MeanWithin(s[l..r + 1], lo, hi);
    }
  }

  lemma {:induction false} SumWithin(s: seq<real>, lo: real, hi: real)
    requires forall i :: 0 <= i < |s| ==> lo <= s[i] <= hi
    ensures lo * |s| as real <= Sum(s) <= hi * |s| as real
  {
    if s != [] {
      var n := (|s| - 1) as real;
      SumWithin(s[1..], lo, hi);
      assert lo * (n + 1.0) == lo * n + lo && hi * (n + 1.0) == hi * n + hi;
    }
  }

  lemma MeanWithin(s: seq<real>, lo: real, hi: real)
    requires s != [] && forall i :: 0 <= i < |s| ==> lo <= s[i] <= hi
    ensures lo <= Mean(s) <= hi
  {
    SumWithin(s, lo, hi);
    var n := |s| as real;
    assert Mean(s) * n == Sum(s);
    if Mean(s) < lo {
      RescaleOrder(n, 0.0, lo, Mean(s));
    } else if Mean(s) > hi {
      RescaleOrder(n, 0.0, Mean(s), hi);
    }
  }
}
