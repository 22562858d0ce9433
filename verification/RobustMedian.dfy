/** `robust_median` of src/time/fuse.rs: order-statistic laws of the median and its exact
    breakdown point. */
module RobustMedian {
  import opened Wrappers
  import opened Numeric
  import opened StableSort

  function Value(x: real): real { x }

  function Sorted(values: seq<real>): (r: seq<real>)
    ensures |r| == |values|
  {
    SortBy(Value, values)
  }

  function Median(values: seq<real>): Option<real> {
    if |values| == 0 then None
    else
      var sorted := Sorted(values);
      var mid := |sorted| / 2;
      if |sorted| % 2 == 0 then Some((sorted[mid - 1] + sorted[mid]) / 2.0)
      else Some(sorted[mid])
  }

  /** `unwrap_or(0.0)` as `from_series` applies it. */
  function MedianOrZero(values: seq<real>): real {
    Median(values).GetOr(0.0)
  }

  ghost predicate Within(x: real, lo: real, hi: real) {
    lo <= x <= hi
  }

  // ----- order statistics

  /** If every value of `a` exceeds its counterpart in `b` by at most `d`, so does every
      order statistic.  With d = 0 this is monotonicity. */
  lemma OrderStatisticShift(a: seq<real>, b: seq<real>, d: real, i: nat)
    requires |a| == |b| && i < |a|
    requires forall j :: 0 <= j < |a| ==> a[j] <= b[j] + d
    ensures Sorted(a)[i] <= Sorted(b)[i] + d
  {
    var v := Sorted(b)[i];
    var atMost := (x: real) => x <= v;
    var atMostShifted := (x: real) => x <= v + d;
    SortSorted(Value, a);
    SortSorted(Value, b);
    CountSort(Value, atMost, b);
    CountSort(Value, atMostShifted, a);
    CountPointwise(atMost, atMostShifted, b, a);
    RankOfDownSet(Value, atMost, Sorted(b), i);
    RankOfDownSet(Value, atMostShifted, Sorted(a), i);
  }

  lemma MedianShift(a: seq<real>, b: seq<real>, d: real)
    requires |a| == |b| > 0
    requires forall j :: 0 <= j < |a| ==> a[j] <= b[j] + d
    ensures Median(a).value <= Median(b).value + d
  {
    var mid := |a| / 2;
    OrderStatisticShift(a, b, d, mid);
    if |a| % 2 == 0 {
      OrderStatisticShift(a, b, d, mid - 1);
    }
  }

  lemma MedianMonotone(a: seq<real>, b: seq<real>)
    requires |a| == |b| > 0
    requires forall j :: 0 <= j < |a| ==> a[j] <= b[j]
    ensures Median(a).value <= Median(b).value
  {
    MedianShift(a, b, 0.0);
  }

  lemma MedianLipschitz(a: seq<real>, b: seq<real>, d: real)
    requires |a| == |b| > 0
    requires forall j :: 0 <= j < |a| ==> Abs(a[j] - b[j]) <= d
    ensures Abs(Median(a).value - Median(b).value) <= d
  {
    MedianShift(a, b, d);
    MedianShift(b, a, d);
  }

  lemma MedianTranslates(a: seq<real>, b: seq<real>, c: real)
    requires |a| == |b| > 0
    requires forall j :: 0 <= j < |a| ==> b[j] == a[j] + c
    ensures Median(b).value == Median(a).value + c
  {
    MedianShift(a, b, -c);
    MedianShift(b, a, c);
  }

  ghost predicate WithinDelay(offset: real, delay: real, c: real, slack: real) {
    Abs(offset - c) <= (delay + slack) / 2.0
  }

  ghost predicate AllWithinDelay(offsets: seq<real>, delays: seq<real>, c: real, slack: real) {
    |offsets| == |delays| && forall j :: 0 <= j < |offsets| ==> WithinDelay(offsets[j], delays[j], c, slack)
  }

  /** When every offset is within half of its own delay, plus slack, of c, the i-th smallest
      offset is at most half of the i-th smallest delay, plus slack, above c. */
  lemma OrderStatisticAbove(offsets: seq<real>, delays: seq<real>, c: real, slack: real, i: nat)
    requires AllWithinDelay(offsets, delays, c, slack) && i < |offsets|
    ensures Sorted(offsets)[i] <= c + (Sorted(delays)[i] + slack) / 2.0
  {
    var v := Sorted(delays)[i];
    var upTo := (d: real) => d <= v;
    var low := (o: real) => o <= c + (v + slack) / 2.0;
    SortSorted(Value, offsets);
    SortSorted(Value, delays);
    CountSort(Value, upTo, delays);
    CountSort(Value, low, offsets);
    assert forall j :: 0 <= j < |offsets| ==> WithinDelay(offsets[j], delays[j], c, slack);
    CountPointwise(upTo, low, delays, offsets);
    RankOfDownSet(Value, upTo, Sorted(delays), i);
    RankOfDownSet(Value, low, Sorted(offsets), i);
  }

  /** And the i-th greatest offset is at most that far below c. */
  lemma OrderStatisticBelow(offsets: seq<real>, delays: seq<real>, c: real, slack: real, i: nat)
    requires AllWithinDelay(offsets, delays, c, slack) && i < |offsets|
    ensures Sorted(offsets)[|offsets| - 1 - i] >= c - (Sorted(delays)[i] + slack) / 2.0
  {
    var v := Sorted(delays)[i];
    var upTo := (d: real) => d <= v;
    var low := (o: real) => o < c - (v + slack) / 2.0;
    SortSorted(Value, offsets);
    SortSorted(Value, delays);
    CountSort(Value, upTo, delays);
    CountSort(Value, low, offsets);
    assert forall j :: 0 <= j < |offsets| ==> WithinDelay(offsets[j], delays[j], c, slack);
    CountExclusive(low, upTo, offsets, delays);
    RankOfDownSet(Value, upTo, Sorted(delays), i);
    RankOfDownSet(Value, low, Sorted(offsets), |offsets| - 1 - i);
  }

  /** When every offset is within half of its own delay, plus slack, of c, the median offset is
      within half of the median delay, plus slack, of c. */
  lemma MedianWithinDelay(offsets: seq<real>, delays: seq<real>, c: real, slack: real)
    requires AllWithinDelay(offsets, delays, c, slack) && |offsets| > 0
    ensures WithinDelay(Median(offsets).value, Median(delays).value, c, slack)
  {
    hide Sorted, AllWithinDelay;
    SameCount(offsets, delays, c, slack);
    var mid := |offsets| / 2;
    OrderStatisticAbove(offsets, delays, c, slack, mid);
    OrderStatisticBelow(offsets, delays, c, slack, mid);
    if |offsets| % 2 == 0 {
      OrderStatisticAbove(offsets, delays, c, slack, mid - 1);
      OrderStatisticBelow(offsets, delays, c, slack, mid - 1);
    }
  }

  lemma SameCount(offsets: seq<real>, delays: seq<real>, c: real, slack: real)
    requires AllWithinDelay(offsets, delays, c, slack)
    ensures |offsets| == |delays|
  {
  }

  lemma MedianOfPermutation(a: seq<real>, b: seq<real>)
    requires multiset(a) == multiset(b)
    ensures Median(a) == Median(b)
  {
    SameLengths(a, b);
    SortOfPermutation(Value, a, b);
  }

  // ----- breakdown point

  /** With strictly fewer than half of the values outside [lo, hi], the median is inside. */
  lemma MedianInBand(values: seq<real>, outside: real -> bool, lo: real, hi: real)
    requires forall x :: !outside(x) ==> Within(x, lo, hi)
    requires 2 * Count(outside, values) < |values|
    ensures Within(Median(values).value, lo, hi)
  {
    hide SortBy, Count;
    var f := Count(outside, values);
    var mid := |values| / 2;
    forall x | !outside(x) ensures lo <= Value(x) <= hi { assert Within(x, lo, hi); }
    OrderStatisticInBand(Value, values, outside, lo, hi, f, mid);
    if |values| % 2 == 0 {
      OrderStatisticInBand(Value, values, outside, lo, hi, f, mid - 1);
    }
  }

  predicate Dishonest(honest: bool) { !honest }

  /** `honest` marks the trustworthy positions of `s`; the other `faulty` ones may hold anything. */
  ghost predicate Marks<T>(s: seq<T>, honest: seq<bool>, faulty: nat) {
    |honest| == |s| && Count(Dishonest, honest) == faulty
  }

  /** `x` lies between two honest values of the series under `key`. */
  ghost predicate BetweenHonest<T>(x: real, key: T -> real, s: seq<T>, honest: seq<bool>)
    requires |honest| == |s|
  {
    exists i, j :: 0 <= i < |s| && 0 <= j < |s| && honest[i] && honest[j] && key(s[i]) <= x <= key(s[j])
  }

  lemma {:induction false} SomeHonest(honest: seq<bool>) returns (h: nat)
    requires Count(Dishonest, honest) < |honest|
    ensures h < |honest| && honest[h]
  {
    if honest[0] {
      h := 0;
    } else {
      h := SomeHonest(honest[1..]);
      h := h + 1;
    }
  }

  lemma LeastHonest<T>(key: T -> real, s: seq<T>, honest: seq<bool>) returns (i: nat)
    requires |honest| == |s| && Count(Dishonest, honest) < |s|
    ensures i < |s| && honest[i] && forall h :: 0 <= h < |s| && honest[h] ==> key(s[i]) <= key(s[h])
  {
    i := SomeHonest(honest);
    for k := 0 to |s|
      invariant i < |s| && honest[i]
      invariant forall h :: 0 <= h < k && honest[h] ==> key(s[i]) <= key(s[h])
    {
      if honest[k] && key(s[k]) < key(s[i]) { i := k; }
    }
  }

  /** The band spanned by the honest values; only faulty positions can lie outside it. */
  lemma HonestBand<T>(key: T -> real, s: seq<T>, honest: seq<bool>, faulty: nat)
    returns (lo: real, hi: real, outside: T -> bool)
    requires Marks(s, honest, faulty) && faulty < |s|
    ensures forall x :: !outside(x) ==> Within(key(x), lo, hi)
    ensures Count(outside, s) <= faulty
    ensures forall x :: Within(x, lo, hi) ==> BetweenHonest(x, key, s, honest)
  {
    var i := LeastHonest(key, s, honest);
    var j := LeastHonest((x: T) => -key(x), s, honest);
    lo, hi := key(s[i]), key(s[j]);
    var l, u := lo, hi;
    outside := (x: T) => !(l <= key(x) <= u);
    CountPointwise(outside, Dishonest, s, honest);
    forall x | Within(x, lo, hi) ensures BetweenHonest(x, key, s, honest) {
      assert key(s[i]) <= x <= key(s[j]);
    }
  }

  lemma MedianResistsMinority(values: seq<real>, honest: seq<bool>, faulty: nat)
    requires Marks(values, honest, faulty) && 2 * faulty < |values|
    ensures BetweenHonest(Median(values).value, Value, values, honest)
  {
    var lo, hi, outside := HonestBand(Value, values, honest, faulty);
    forall x | !outside(x) ensures Within(x, lo, hi) { assert Within(Value(x), lo, hi); }
    MedianInBand(values, outside, lo, hi);
  }

  /** `n - f` copies of `good` followed by `f` copies of `bad`. */
  function TwoLevels<T>(n: nat, f: nat, good: T, bad: T): (r: seq<T>)
    requires f <= n
    ensures |r| == n
    ensures forall i :: 0 <= i < n ==> r[i] == if i < n - f then good else bad
  {
    seq(n, i => if i < n - f then good else bad)
  }

  lemma {:induction false} TwoLevelsCount<T>(p: T -> bool, n: nat, f: nat, good: T, bad: T)
    requires f <= n && p(bad) && !p(good)
    ensures Count(p, TwoLevels(n, f, good, bad)) == f
  {
    var s := TwoLevels(n, f, good, bad);
    if n > f {
      assert s[1..] == TwoLevels(n - 1, f, good, bad);
      TwoLevelsCount(p, n - 1, f, good, bad);
    } else if n > 0 {
      assert s[1..] == TwoLevels(n - 1, f - 1, good, bad);
      TwoLevelsCount(p, n - 1, f - 1, good, bad);
    }
  }

  lemma TwoLevelsSorted<T>(key: T -> real, n: nat, f: nat, good: T, bad: T)
    requires f <= n && key(good) <= key(bad)
    ensures SortBy(key, TwoLevels(n, f, good, bad)) == TwoLevels(n, f, good, bad)
  {
    StableSortCharacterised(key, TwoLevels(n, f, good, bad), TwoLevels(n, f, good, bad));
  }

  /** However the faulty values are chosen, the median stays among the honest ones. */
  ghost predicate MedianTolerates(n: nat, faulty: nat)
    requires n > 0
  {
    forall values: seq<real>, honest: seq<bool> ::
      |values| == n && Marks(values, honest, faulty) ==> BetweenHonest(Median(values).value, Value, values, honest)
  }

  /** The breakdown point of the median is exactly one half. */
  lemma MedianBreakdownPoint(n: nat, faulty: nat)
    requires 0 < n && faulty <= n
    ensures MedianTolerates(n, faulty) <==> 2 * faulty < n
  {
    if 2 * faulty < n {
      forall values: seq<real>, honest: seq<bool> | |values| == n && Marks(values, honest, faulty)
        ensures BetweenHonest(Median(values).value, Value, values, honest)
      {
        MedianResistsMinority(values, honest, faulty);
      }
    } else {
      var values, honest := TwoLevels(n, faulty, 0.0, 1.0), TwoLevels(n, faulty, true, false);
      TwoLevelsCount(Dishonest, n, faulty, true, false);
      TwoLevelsSorted(Value, n, faulty, 0.0, 1.0);
      assert Sorted(values)[n / 2] == 1.0;
      assert Median(values).value >= 0.5;
      assert Marks(values, honest, faulty);
      assert !BetweenHonest(Median(values).value, Value, values, honest);
    }
  }
}
