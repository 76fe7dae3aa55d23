/** The four summary figures the scrapers compute with `min`, `max`, `statistics.median`,
    `statistics.mean` and `round(..., 2)`, on exact reals. */
module PriceStatistics {

  function Min(s: seq<real>): (m: real)
    requires |s| > 0
    ensures m in s
    ensures forall k :: 0 <= k < |s| ==> m <= s[k]
  {
    if |s| == 1 then s[0]
    else
      var rest := Min(s[1..]);
      if s[0] <= rest then s[0] else rest
  }

  function Max(s: seq<real>): (m: real)
    requires |s| > 0
    ensures m in s
    ensures forall k :: 0 <= k < |s| ==> s[k] <= m
  {
    if |s| == 1 then s[0]
    else
      var rest := Max(s[1..]);
      if s[0] >= rest then s[0] else rest
  }

  function Sum(s: seq<real>): real
  {
    if s == [] then 0.0 else s[0] + Sum(s[1..])
  }

  /** `statistics.mean`: the arithmetic mean, unrounded. */
  function Mean(s: seq<real>): real
    requires |s| > 0
  {
    Sum(s) / |s| as real
  }

  predicate Sorted(s: seq<real>)
  {
    forall i, j :: 0 <= i < j < |s| ==> s[i] <= s[j]
  }

  function Insert(x: real, s: seq<real>): (r: seq<real>)
    requires Sorted(s)
    ensures Sorted(r)
    ensures |r| == |s| + 1
    ensures multiset(r) == multiset(s) + multiset{x}
  {
    if s == [] || x <= s[0] then
      MultisetCons(x, s);
      [x] + s
    else
      SortedTail(s);
      var rest := Insert(x, s[1..]);
      HeadBelowInsert(s, x, rest);
      SortedCons(s[0], rest);
      InsertedBehindHead(s, x, rest);
      [s[0]] + rest
  }

  lemma InsertedBehindHead(s: seq<real>, x: real, rest: seq<real>)
    requires s != [] && multiset(rest) == multiset(s[1..]) + multiset{x}
    ensures multiset([s[0]] + rest) == multiset(s) + multiset{x}
  {
    MultisetCons(s[0], rest);
    MultisetCons(s[0], s[1..]);
    assert s == [s[0]] + s[1..];
  }

  lemma MultisetCons<T>(h: T, t: seq<T>)
    ensures multiset([h] + t) == multiset{h} + multiset(t)
  {
  }

  lemma SortedTail(s: seq<real>)
    requires Sorted(s) && s != []
    ensures Sorted(s[1..])
    ensures forall j :: 0 <= j < |s[1..]| ==> s[0] <= s[1..][j]
  {
  }

  /** Inserting a larger price into the tail keeps the head below every element. */
  lemma HeadBelowInsert(s: seq<real>, x: real, rest: seq<real>)
    requires s != [] && s[0] < x
    requires forall j :: 0 <= j < |s[1..]| ==> s[0] <= s[1..][j]
    requires multiset(rest) == multiset(s[1..]) + multiset{x}
    ensures forall j :: 0 <= j < |rest| ==> s[0] <= rest[j]
  {
    forall j | 0 <= j < |rest| ensures s[0] <= rest[j] {
      assert rest[j] in multiset(rest);
      if rest[j] != x {
        assert rest[j] in multiset(s[1..]);
        var k :| 0 <= k < |s[1..]| && s[1..][k] == rest[j];
      }
    }
  }

  lemma SortedCons(h: real, t: seq<real>)
    requires Sorted(t)
    requires forall j :: 0 <= j < |t| ==> h <= t[j]
    ensures Sorted([h] + t)
  {
    var r := [h] + t;
    forall i, j | 0 <= i < j < |r| ensures r[i] <= r[j] {
      assert r[j] == t[j - 1];
      if i > 0 {
        assert r[i] == t[i - 1];
      }
    }
  }

  lemma SortedHeadIsLeast(a: seq<real>, x: real)
    requires Sorted(a) && x in multiset(a)
    ensures a[0] <= x
  {
    var k :| 0 <= k < |a| && a[k] == x;
    if k > 0 {
      assert a[0] <= a[k];
    }
  }

  /** `sorted(s)`: the ascending arrangement of the same prices. */
  function Sort(s: seq<real>): (r: seq<real>)
    ensures Sorted(r)
    ensures |r| == |s|
    ensures multiset(r) == multiset(s)
  {
    if s == [] then []
    else
      assert s == [s[0]] + s[1..];
      Insert(s[0], Sort(s[1..]))
  }

  /** `statistics.median`: the middle price, or the average of the two middle prices. */
  function Median(s: seq<real>): real
    requires |s| > 0
  {
    Middle(Sort(s))
  }

  /** The middle element of an ascending sequence, or the average of its two middle elements. */
  function Middle(sorted: seq<real>): real
    requires |sorted| > 0
  {
    var mid := |sorted| / 2;
    if |sorted| % 2 == 1 then sorted[mid] else (sorted[mid - 1] + sorted[mid]) / 2.0
  }

  /** True when `x` is a whole number of cents. */
  predicate IsWholeCents(x: real)
  {
    (x * 100.0).Floor as real == x * 100.0
  }

  /** `round(x, 2)` on an exact real: the nearest hundredth, a tie going to the even hundredth. */
  function Round2(x: real): real
  {
    var scaled := x * 100.0;
    var n := scaled.Floor;
    var excess := scaled - n as real;
    var k := if excess < 0.5 then n
             else if excess > 0.5 then n + 1
             else if n % 2 == 0 then n
             else n + 1;
    k as real / 100.0
  }

  // ----- bounds -----

  lemma {:induction false} SumBounds(s: seq<real>, lo: real, hi: real)
    requires forall k :: 0 <= k < |s| ==> lo <= s[k] <= hi
    ensures |s| as real * lo <= Sum(s) <= |s| as real * hi
  {
    if s != [] {
      SumBounds(s[1..], lo, hi);
      assert s[0] == s[0];
    }
  }

  /** The mean lies between the lowest and the highest price. */
  lemma MeanBounds(s: seq<real>)
    requires |s| > 0
    ensures Min(s) <= Mean(s) <= Max(s)
  {
    MeanWithin(s, Min(s), Max(s));
  }

  lemma MeanWithin(s: seq<real>, lo: real, hi: real)
    requires |s| > 0
    requires forall k :: 0 <= k < |s| ==> lo <= s[k] <= hi
    ensures lo <= Mean(s) <= hi
  {
    SumBounds(s, lo, hi);
    QuotientBounds(Sum(s), |s| as real, lo, hi);
  }

  lemma QuotientBounds(total: real, n: real, lo: real, hi: real)
    requires n > 0.0
    requires n * lo <= total <= n * hi
    ensures lo <= total / n <= hi
  {
  }

  lemma InBounds(s: seq<real>, x: real)
    requires |s| > 0 && x in multiset(s)
    ensures Min(s) <= x <= Max(s)
  {
    assert x in s;
    var k :| 0 <= k < |s| && s[k] == x;
  }

  /** The median (before rounding) lies between the lowest and the highest price. */
  lemma MedianBounds(s: seq<real>)
    requires |s| > 0
    ensures Min(s) <= Median(s) <= Max(s)
  {
    var sorted := Sort(s);
    forall k | 0 <= k < |sorted| ensures Min(s) <= sorted[k] <= Max(s) {
      assert sorted[k] in multiset(sorted);
      InBounds(s, sorted[k]);
    }
    MiddleWithin(sorted, Min(s), Max(s));
  }

  lemma MiddleWithin(sorted: seq<real>, lo: real, hi: real)
    requires |sorted| > 0
    requires forall k :: 0 <= k < |sorted| ==> lo <= sorted[k] <= hi
    ensures lo <= Middle(sorted) <= hi
  {
    var mid := |sorted| / 2;
    assert lo <= sorted[mid] <= hi;
    if |sorted| % 2 == 0 {
      assert lo <= sorted[mid - 1] <= hi;
    }
  }

  // ----- rounding -----

  /** Rounding never moves a value by more than half a cent. */
  lemma Round2Error(x: real)
    ensures -0.005 <= Round2(x) - x <= 0.005
  {
  }

  /** Rounding keeps the order of two values. */
  lemma Round2Monotone(x: real, y: real)
    requires x <= y
    ensures Round2(x) <= Round2(y)
  {
    var nx, ny := (x * 100.0).Floor, (y * 100.0).Floor;
    assert nx <= ny;
  }

  /** A whole number of cents is left as it is. */
  lemma Round2WholeCents(x: real)
    ensures IsWholeCents(x) ==> Round2(x) == x
  {
  }

  /** A pool of one price has that price as all four figures. */
  lemma SingletonStats(x: real)
    ensures Min([x]) == Max([x]) == Mean([x]) == Median([x]) == x
  {
    var sorted := Sort([x]);
    assert sorted[0] in multiset(sorted);
    assert sorted == [x];
    assert Sum([x]) == x + Sum([]);
    assert Mean([x]) == x / 1.0;
  }

  /** When the lowest and highest prices are whole cents, the rounded median is still between them. */
  lemma RoundedMedianBounds(s: seq<real>)
    requires |s| > 0
    ensures IsWholeCents(Min(s)) && IsWholeCents(Max(s)) ==> Min(s) <= Round2(Median(s)) <= Max(s)
  {
    MedianBounds(s);
    Round2Monotone(Min(s), Median(s));
    Round2Monotone(Median(s), Max(s));
    Round2WholeCents(Min(s));
    Round2WholeCents(Max(s));
  }

  // ----- order independence -----

  /** Two ascending sequences holding the same prices are the same sequence. */
  lemma {:induction false} SortedUnique(a: seq<real>, b: seq<real>)
    requires Sorted(a) && Sorted(b)
    requires multiset(a) == multiset(b)
    ensures a == b
  {
    assert |a| == |multiset(a)| == |multiset(b)| == |b|;
    if a != [] {
      SameLeast(a, b);
      SortedTail(a);
      SortedTail(b);
      SortedUnique(a[1..], b[1..]);
      assert a == [a[0]] + a[1..] && b == [b[0]] + b[1..];
    }
  }

  /** Two ascending sequences holding the same prices start with the same price, and the
      rest of them hold the same prices. */
  lemma SameLeast(a: seq<real>, b: seq<real>)
    requires Sorted(a) && Sorted(b) && a != []
    requires multiset(a) == multiset(b)
    ensures b != [] && a[0] == b[0]
    ensures multiset(a[1..]) == multiset(b[1..])
  {
    assert a[0] in multiset(a);
    assert b != [];
    assert b[0] in multiset(b);
    SortedHeadIsLeast(a, b[0]);
    SortedHeadIsLeast(b, a[0]);
    TailMultiset(a);
    TailMultiset(b);
  }

  lemma TailMultiset<T>(a: seq<T>)
    requires a != []
    ensures multiset(a[1..]) == multiset(a) - multiset{a[0]}
  {
    MultisetCons(a[0], a[1..]);
    assert a == [a[0]] + a[1..];
  }

  lemma {:induction false} SumInsert(x: real, s: seq<real>)
    requires Sorted(s)
    ensures Sum(Insert(x, s)) == x + Sum(s)
  {
    if s != [] && x > s[0] {
      SumInsert(x, s[1..]);
    }
  }

  lemma {:induction false} SumSort(s: seq<real>)
    ensures Sum(Sort(s)) == Sum(s)
  {
    if s != [] {
      SumSort(s[1..]);
      SumInsert(s[0], Sort(s[1..]));
    }
  }

  /** The four figures depend only on which prices were collected, not on their order. */
  lemma StatsOrderIndependent(s: seq<real>, t: seq<real>)
    requires |s| > 0
    requires multiset(s) == multiset(t)
    ensures |t| == |s|
    ensures Min(s) == Min(t) && Max(s) == Max(t)
    ensures Median(s) == Median(t) && Mean(s) == Mean(t)
  {
    assert |t| == |multiset(t)| == |multiset(s)| == |s|;
    MinMaxOrderIndependent(s, t);
    SortOrderIndependent(s, t);
    SumOrderIndependent(s, t);
    assert Mean(s) == Sum(s) / |s| as real;
  }

  lemma SortOrderIndependent(s: seq<real>, t: seq<real>)
    requires multiset(s) == multiset(t)
    ensures Sort(s) == Sort(t)
  {
    SortedUnique(Sort(s), Sort(t));
  }

  lemma SumOrderIndependent(s: seq<real>, t: seq<real>)
    requires multiset(s) == multiset(t)
    ensures Sum(s) == Sum(t)
  {
    SortOrderIndependent(s, t);
    SumSort(s);
    SumSort(t);
  }

  lemma MinMaxOrderIndependent(s: seq<real>, t: seq<real>)
    requires |s| > 0 && |t| > 0
    requires multiset(s) == multiset(t)
    ensures Min(s) == Min(t) && Max(s) == Max(t)
  {
    InBounds(t, Min(s));
    InBounds(s, Min(t));
    InBounds(t, Max(s));
    InBounds(s, Max(t));
  }
}
