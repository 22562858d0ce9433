/** Robust fusion of per-peer summaries, src/time/fuse.rs: medians per peer, selection of
    the best-scoring peers, symmetric trimming by offset, jitter-weighted mean. */
module Fusion {
  import opened Wrappers
  import opened Numeric
  import opened StableSort
  import opened RobustMedian

  datatype PeerSample = PeerSample(
    peerId: nat,
    peerWeight: real,
    offsetMedian: real,
    delayMedian: real,
    jitterMedian: real)

  datatype TrimmedStats = TrimmedStats(
    meanOffset: real,
    meanDelay: real,
    totalWeight: real,
    kept: seq<PeerSample>)

  const F64_EPSILON: real := 1.0 / 4503599627370496.0

  function FromSeries(peerId: nat, weight: real, offsets: seq<real>, delays: seq<real>,
      jitters: seq<real>): PeerSample {
    PeerSample(peerId, Max(weight, 0.01), MedianOrZero(offsets), MedianOrZero(delays), Abs(MedianOrZero(jitters)))
  }

  // ----- selection

  function PeerScore(s: PeerSample): real {
    Abs(s.delayMedian) + Abs(s.jitterMedian)
  }

  /** The score treats delay and jitter alike, ignores their signs, is zero for a perfect sample
      and grows by exactly as much as either magnitude does. */
  lemma ScoreLaw(s: PeerSample, c: real)
    ensures s.delayMedian == s.jitterMedian == 0.0 ==> PeerScore(s) == 0.0
    ensures PeerScore(s.(delayMedian := s.jitterMedian, jitterMedian := s.delayMedian)) == PeerScore(s)
    ensures PeerScore(s.(delayMedian := -s.delayMedian)) == PeerScore(s)
    ensures s.delayMedian >= 0.0 && c >= 0.0 ==> PeerScore(s.(delayMedian := s.delayMedian + c)) == PeerScore(s) + c
    ensures s.jitterMedian >= 0.0 && c >= 0.0 ==> PeerScore(s.(jitterMedian := s.jitterMedian + c)) == PeerScore(s) + c
  {
  }

  /** How many of `m` peers survive selection: the ceiling of the clamped fraction, at least one. */
  function KeepCount(m: nat, quantile: real): nat {
    var keep := Ceil(m as real * Clamp01(quantile));
    if keep < 1 then 1 else keep
  }

  lemma KeepCountBounds(m: nat, quantile: real)
    requires m > 0
    ensures 1 <= KeepCount(m, quantile) <= m
  {
    var x, c := m as real, Clamp01(quantile);
    ProductNonNegative(x, 1.0 - c);
    assert x * c <= x;
  }

  /** The count is the least positive number that covers the fraction. */
  lemma KeepCountIsLeast(m: nat, quantile: real, n: nat)
    requires n >= 1
    ensures KeepCount(m, quantile) <= n <==> m as real * Clamp01(quantile) <= n as real
    ensures KeepCount(m, quantile) <= n <==> m <= n || m as real * quantile <= n as real
  {
    CoversClamped(m as real, quantile, n as real);
    var x := m as real * Clamp01(quantile);
    hide Clamp01;
    assert -x - 1.0 < (-x).Floor as real <= -x;
  }

  /** Clamping the fraction changes nothing but the reading of fractions outside [0, 1]. */
  lemma CoversClamped(m: real, quantile: real, n: real)
    requires m >= 0.0 && n >= 0.0
    ensures m * Clamp01(quantile) <= n <==> m <= n || m * quantile <= n
  {
    if quantile < 0.0 {
      ProductNonNegative(m, -quantile);
    } else if quantile > 1.0 {
      ProductNonNegative(m, quantile - 1.0);
    } else {
      ProductNonNegative(m, 1.0 - quantile);
    }
  }

  function SelectBestPeers(samples: seq<PeerSample>, quantile: real): (r: seq<PeerSample>)
    ensures |samples| > 0 ==> |r| == KeepCount(|samples|, quantile)
  {
    if |samples| == 0 then []
    else
      KeepCountBounds(|samples|, quantile);
      SortBy(PeerScore, samples)[..KeepCount(|samples|, quantile)]
  }

  lemma KeyClassCons<T>(key: T -> real, v: real, x: T, s: seq<T>)
    ensures KeyClass(key, v, [x] + s) == if key(x) == v then [x] + KeyClass(key, v, s) else KeyClass(key, v, s)
  {
    assert ([x] + s)[1..] == s;
  }

  lemma {:induction false} KeyClassConcat<T>(key: T -> real, v: real, a: seq<T>, b: seq<T>)
    ensures KeyClass(key, v, a + b) == KeyClass(key, v, a) + KeyClass(key, v, b)
  {
    if |a| == 0 {
      assert a + b == b;
    } else {
      hide KeyClass;
      KeyClassConcat(key, v, a[1..], b);
      KeyClassCons(key, v, a[0], a[1..] + b);
      KeyClassCons(key, v, a[0], a[1..]);
      assert a == [a[0]] + a[1..];
      assert a + b == [a[0]] + (a[1..] + b);
    }
  }

  /** Selection splits the samples in two: nothing left out scores better than anything
      selected, and among equal scores the earlier samples are preferred. */
  lemma SelectionIsBest(samples: seq<PeerSample>, quantile: real) returns (rest: seq<PeerSample>)
    ensures var best := SelectBestPeers(samples, quantile);
            && multiset(best) + multiset(rest) == multiset(samples)
            && (forall i, j :: 0 <= i < |best| && 0 <= j < |rest| ==> PeerScore(best[i]) <= PeerScore(rest[j]))
            && (forall v ::
                  KeyClass(PeerScore, v, best) + KeyClass(PeerScore, v, rest) == KeyClass(PeerScore, v, samples))
  {
    hide SortBy, PeerScore, KeyClass;
    if |samples| == 0 {
      rest := [];
      KeyClassNone(PeerScore);
    } else {
      KeepCountBounds(|samples|, quantile);
      var sorted, k := SortBy(PeerScore, samples), KeepCount(|samples|, quantile);
      rest := sorted[k..];
      assert sorted == sorted[..k] + rest;
      SortContents(PeerScore, samples);
      SortSorted(PeerScore, samples);
      forall v
        ensures KeyClass(PeerScore, v, sorted[..k]) + KeyClass(PeerScore, v, rest) == KeyClass(PeerScore, v, samples)
      {
        KeyClassConcat(PeerScore, v, sorted[..k], rest);
        SortStable(PeerScore, v, samples);
      }
    }
  }

  /** On the fields: the sizes of delay and jitter of anything selected add up to at most those
      of anything left out, and the selected come best first. */
  lemma SelectedAreBetter(samples: seq<PeerSample>, quantile: real) returns (rest: seq<PeerSample>)
    ensures multiset(SelectBestPeers(samples, quantile)) + multiset(rest) == multiset(samples)
    ensures forall a, b :: a in SelectBestPeers(samples, quantile) && b in rest ==>
              (if a.delayMedian < 0.0 then -a.delayMedian else a.delayMedian)
              + (if a.jitterMedian < 0.0 then -a.jitterMedian else a.jitterMedian)
              <= (if b.delayMedian < 0.0 then -b.delayMedian else b.delayMedian)
               + (if b.jitterMedian < 0.0 then -b.jitterMedian else b.jitterMedian)
    ensures SortedBy(PeerScore, SelectBestPeers(samples, quantile))
  {
    hide SelectBestPeers, KeyClass;
    rest := SelectionIsBest(samples, quantile);
    SelectionSorted(samples, quantile);
    var best := SelectBestPeers(samples, quantile);
    forall a, b | a in best && b in rest ensures PeerScore(a) <= PeerScore(b) {
      var i :| 0 <= i < |best| && best[i] == a;
      var j :| 0 <= j < |rest| && rest[j] == b;
      assert PeerScore(best[i]) <= PeerScore(rest[j]);
    }
  }

  lemma SelectionSorted(samples: seq<PeerSample>, quantile: real)
    ensures SortedBy(PeerScore, SelectBestPeers(samples, quantile))
  {
    SortSorted(PeerScore, samples);
    hide SortBy, PeerScore;
    if |samples| > 0 {
      KeepCountBounds(|samples|, quantile);
    }
  }

  lemma KeyClassNone<T>(key: T -> real)
    ensures forall v :: KeyClass(key, v, []) == []
  {
  }

  // ----- trimming and the weighted mean

  function OffsetOf(s: PeerSample): real { s.offsetMedian }

  function DelayOf(s: PeerSample): real { s.delayMedian }

  function Weight(s: PeerSample): real {
    s.peerWeight / (1.0 + Abs(s.jitterMedian) / 1000.0)
  }

  function WeightedOffset(s: PeerSample): real { Weight(s) * s.offsetMedian }

  function WeightedDelay(s: PeerSample): real { Weight(s) * s.delayMedian }

  function TrimCount(n: nat, trimRatio: real): nat {
    FloorToNat(n as real * trimRatio)
  }

  /** The greatest number within the ratio; zero when the ratio is negative. */
  lemma TrimCountIsGreatest(n: nat, trimRatio: real, t: nat)
    ensures t <= TrimCount(n, trimRatio) <==> t == 0 || t as real <= n as real * trimRatio
  {
    var x := n as real * trimRatio;
    assert x - 1.0 < x.Floor as real <= x;
  }

  /** The slice left after dropping `trim` samples at each end of the offset order.
      Indexing past the end of the slice is Rust's panic. */
  function KeptOf(samples: seq<PeerSample>, trimRatio: real): Outcome<seq<PeerSample>> {
    var subset := SortBy(OffsetOf, samples);
    var n := |subset|;
    var trim := TrimCount(n, trimRatio);
    var start := if trim < n then trim else n;
    var end := if n - start < start + 1 then start + 1 else n - start;
    if end <= n then Returned(subset[start..end]) else Panicked
  }

  /** The weighted mean when some weight is positive, the plain mean otherwise. */
  function MeanOf(weighted: PeerSample -> real, plain: PeerSample -> real, kept: seq<PeerSample>): real {
    var total := Sum(Weight, kept);
    if total > 0.0 then Sum(weighted, kept) / total
    else Sum(plain, kept) / ((if |kept| > 1 then |kept| else 1) as real)
  }

  function StatsOf(kept: seq<PeerSample>): TrimmedStats {
    TrimmedStats(MeanOf(WeightedOffset, OffsetOf, kept), MeanOf(WeightedDelay, DelayOf, kept),
                 Max(Sum(Weight, kept), F64_EPSILON), kept)
  }

  lemma SumConcat<T>(f: T -> real, a: seq<T>, b: seq<T>)
    ensures Sum(f, a + b) == Sum(f, a) + Sum(f, b)
  {
    if |b| == 0 {
      assert a + b == a;
    } else {
      SumConcat(f, a, b[..|b| - 1]);
      assert (a + b)[..|a + b| - 1] == a + b[..|b| - 1];
    }
  }

  /** The total weight turns the means back into the weighted sums, unless there is too little of it. */
  ghost predicate Restores(stats: TrimmedStats) {
    Sum(Weight, stats.kept) >= 1.0 / 4503599627370496.0 ==>
      && stats.meanOffset * stats.totalWeight == Sum(WeightedOffset, stats.kept)
      && stats.meanDelay * stats.totalWeight == Sum(WeightedDelay, stats.kept)
  }

  /** The total weight turns the means back into the weighted sums, adds up over kept samples
      taken together, and is 2^-52 when there is less than that; without a positive weight the
      means are plain ones. */
  lemma TotalWeightLaw(kept: seq<PeerSample>, more: seq<PeerSample>)
    ensures StatsOf(kept).kept == kept
    ensures Sum(Weight, kept) >= 1.0 / 4503599627370496.0 ==>
              && StatsOf(kept).meanOffset * StatsOf(kept).totalWeight == Sum(WeightedOffset, kept)
              && StatsOf(kept).meanDelay * StatsOf(kept).totalWeight == Sum(WeightedDelay, kept)
    ensures Sum(Weight, kept) < 1.0 / 4503599627370496.0 ==> StatsOf(kept).totalWeight == 1.0 / 4503599627370496.0
    ensures Sum(Weight, kept) >= 1.0 / 4503599627370496.0 && Sum(Weight, more) >= 1.0 / 4503599627370496.0 ==>
              StatsOf(kept + more).totalWeight == StatsOf(kept).totalWeight + StatsOf(more).totalWeight
    ensures Sum(Weight, kept) <= 0.0 && |kept| > 0 ==>
              && StatsOf(kept).meanOffset * |kept| as real == Sum(OffsetOf, kept)
              && StatsOf(kept).meanDelay * |kept| as real == Sum(DelayOf, kept)
  {
    hide Sum, Weight, WeightedOffset, WeightedDelay, OffsetOf, DelayOf;
    SumConcat(Weight, kept, more);
  }

  lemma {:induction false} SumConstant(f: PeerSample -> real, s: seq<PeerSample>, w: real)
    requires forall i :: 0 <= i < |s| ==> f(s[i]) == w
    ensures Sum(f, s) == |s| as real * w
  {
    if |s| > 0 {
      SumConstant(f, s[..|s| - 1], w);
    }
  }

  /** n samples of weight w without jitter weigh n w together. */
  lemma EqualWeightsAdd(kept: seq<PeerSample>, w: real)
    requires |kept| > 0 && w >= 1.0 / 4503599627370496.0
    requires forall i :: 0 <= i < |kept| ==> kept[i].peerWeight == w && kept[i].jitterMedian == 0.0
    ensures StatsOf(kept).totalWeight == |kept| as real * w
  {
    forall i | 0 <= i < |kept| ensures Weight(kept[i]) == w {
      WeightLaw(kept[i], kept[i]);
    }
    SumConstant(Weight, kept, w);
    ProductNonNegative((|kept| - 1) as real, w);
    assert |kept| as real * w == w + (|kept| - 1) as real * w;
    hide Sum, Weight;
  }

  function TrimmedStatsOf(samples: seq<PeerSample>, trimRatio: real): Outcome<TrimmedStats> {
    match KeptOf(samples, trimRatio)
    case Panicked => Panicked
    case Returned(kept) => Returned(StatsOf(kept))
  }

  /** The accumulation loop of `from_samples`. */
  method Totals(kept: seq<PeerSample>) returns (totalWeight: real, weightedOffset: real, weightedDelay: real)
    ensures totalWeight == Sum(Weight, kept)
    ensures weightedOffset == Sum(WeightedOffset, kept)
    ensures weightedDelay == Sum(WeightedDelay, kept)
  {
    totalWeight, weightedOffset, weightedDelay := 0.0, 0.0, 0.0;
    for i := 0 to |kept|
      invariant totalWeight == Sum(Weight, kept[..i])
      invariant weightedOffset == Sum(WeightedOffset, kept[..i])
      invariant weightedDelay == Sum(WeightedDelay, kept[..i])
    {
      SumStep(Weight, kept, i);
      SumStep(WeightedOffset, kept, i);
      SumStep(WeightedDelay, kept, i);
      var weight := Weight(kept[i]);
      totalWeight := totalWeight + weight;
      weightedOffset := weightedOffset + weight * kept[i].offsetMedian;
      weightedDelay := weightedDelay + weight * kept[i].delayMedian;
    }
    assert kept[..|kept|] == kept;
  }

  method FromSamples(samples: seq<PeerSample>, trimRatio: real) returns (r: Outcome<TrimmedStats>)
    ensures r == TrimmedStatsOf(samples, trimRatio)
    ensures r.Returned? <==> |samples| > 0 && trimRatio < 1.0
    ensures r.Returned? ==>
              var stats, k, t := r.value, |samples|, TrimCount(|samples|, trimRatio);
              && t < k && |stats.kept| == (if k - 2 * t > 1 then k - 2 * t else 1) && t + |stats.kept| <= k
              && stats.kept == SortBy(OffsetOf, samples)[t..t + |stats.kept|]
              && Restores(stats)
  {
    hide Sum, Weight, WeightedOffset, WeightedDelay, KeptOf;
    TrimmingOutcome(samples, trimRatio);
    var slice := KeptOf(samples, trimRatio);
    if slice.Panicked? {
      return Panicked;
    }
    var kept := slice.value;
    var totalWeight, weightedOffset, weightedDelay := Totals(kept);
    var count := (if |kept| > 1 then |kept| else 1) as real;
    var meanOffset := if totalWeight > 0.0 then weightedOffset / totalWeight else Sum(OffsetOf, kept) / count;
    var meanDelay := if totalWeight > 0.0 then weightedDelay / totalWeight else Sum(DelayOf, kept) / count;
    r := Returned(TrimmedStats(meanOffset, meanDelay, Max(totalWeight, F64_EPSILON), kept));
    TotalWeightLaw(kept, kept);
  }

  lemma FloorOfShrunk(n: nat, r: real)
    requires n > 0
    ensures (n as real * r).Floor < n <==> r < 1.0
  {
    if r < 1.0 {
      ShrinkBelow(n as real, r);
    } else {
      ProductNonNegative(n as real, r - 1.0);
    }
  }

  lemma TrimCountBelow(n: nat, trimRatio: real)
    requires n > 0
    ensures TrimCount(n, trimRatio) < n <==> trimRatio < 1.0
  {
    FloorOfShrunk(n, trimRatio);
  }

  function KeptCount(k: nat, t: nat): nat {
    if k - 2 * t > 1 then k - 2 * t else 1
  }

  /** Trimming panics exactly on an empty input or a ratio of at least one; otherwise it
      keeps the samples at sorted positions t up to max(k - t, t + 1). */
  lemma TrimmingOutcome(samples: seq<PeerSample>, trimRatio: real)
    ensures KeptOf(samples, trimRatio).Returned? <==> |samples| > 0 && trimRatio < 1.0
    ensures KeptOf(samples, trimRatio).Returned? ==>
              var k, t, kept := |samples|, TrimCount(|samples|, trimRatio), KeptOf(samples, trimRatio).value;
              && |kept| == KeptCount(k, t)
              && t + |kept| <= k
              && forall i :: 0 <= i < |kept| ==> kept[i] == SortBy(OffsetOf, samples)[t + i]
  {
    if |samples| > 0 {
      TrimCountBelow(|samples|, trimRatio);
    }
  }

  // ----- the mean lies in the hull of the kept offsets

  lemma {:induction false} SumBand<T>(f: T -> real, g: T -> real, s: seq<T>, lo: real, hi: real)
    requires forall i :: 0 <= i < |s| ==> Band(lo, hi, g(s[i]), f(s[i]))
    ensures Band(lo, hi, Sum(g, s), Sum(f, s))
  {
    hide Band;
    if |s| == 0 {
      BandZero(lo, hi);
    } else {
      var init, last := s[..|s| - 1], s[|s| - 1];
      SumBand(f, g, init, lo, hi);
      assert Band(lo, hi, g(last), f(last));
      BandSum(lo, hi, Sum(g, init), Sum(f, init), g(last), f(last));
    }
  }

  function One(s: PeerSample): real { 1.0 }

  lemma {:induction false} SumOnes(s: seq<PeerSample>)
    ensures Sum(One, s) == |s| as real
  {
    if |s| > 0 {
      SumOnes(s[..|s| - 1]);
    }
  }

  lemma {:induction false} SumDominates<T>(f: T -> real, s: seq<T>, i: nat)
    requires i < |s| && forall j :: 0 <= j < |s| ==> f(s[j]) >= 0.0
    ensures Sum(f, s) >= f(s[i])
  {
    if i < |s| - 1 {
      SumDominates(f, s[..|s| - 1], i);
    } else if |s| > 1 {
      SumDominates(f, s[..|s| - 1], 0);
    }
  }

  ghost predicate NonNegativeWeights(samples: seq<PeerSample>) {
    forall i :: 0 <= i < |samples| ==> samples[i].peerWeight >= 0.0
  }

  lemma WeightSign(s: PeerSample)
    requires s.peerWeight >= 0.0
    ensures Weight(s) >= 0.0
    ensures s.peerWeight > 0.0 ==> Weight(s) > 0.0
  {
    var d := 1.0 + Abs(s.jitterMedian) / 1000.0;
    assert d >= 1.0;
    assert Weight(s) * d == s.peerWeight;
  }

  lemma Rescaled(w: real, d: real, j: real, peer: real)
    requires d == 1.0 + j / 1000.0 && w * d == peer
    ensures w * (1000.0 + j) == 1000.0 * peer
  {
    assert 1000.0 + j == 1000.0 * d;
    assert w * (1000.0 * d) == 1000.0 * (w * d);
  }

  /** The weight at every jitter: the configured one times 1000 / (1000 + |jitter|). */
  lemma WeightAt(s: PeerSample)
    ensures s.jitterMedian >= 0.0 ==> Weight(s) * (1000.0 + s.jitterMedian) == 1000.0 * s.peerWeight
    ensures s.jitterMedian <= 0.0 ==> Weight(s) * (1000.0 - s.jitterMedian) == 1000.0 * s.peerWeight
  {
    var d := 1.0 + Abs(s.jitterMedian) / 1000.0;
    assert Weight(s) * d == s.peerWeight;
    hide Weight;
    Rescaled(Weight(s), d, Abs(s.jitterMedian), s.peerWeight);
  }

  /** The weight is the configured one without jitter, half of it at a microsecond of jitter,
      and never grows with the jitter. */
  lemma WeightLaw(s: PeerSample, s': PeerSample)
    requires s'.peerWeight == s.peerWeight >= 0.0 && Abs(s.jitterMedian) <= Abs(s'.jitterMedian)
    ensures s.jitterMedian == 0.0 ==> Weight(s) == s.peerWeight
    ensures Abs(s.jitterMedian) == 1000.0 ==> 2.0 * Weight(s) == s.peerWeight
    ensures Weight(s') <= Weight(s)
  {
    var d, d' := 1.0 + Abs(s.jitterMedian) / 1000.0, 1.0 + Abs(s'.jitterMedian) / 1000.0;
    assert Weight(s) * d == s.peerWeight && Weight(s') * d' == s.peerWeight;
    WeightSign(s');
    hide Weight;
    ProductNonNegative(Weight(s'), d' - d);
    if Weight(s') > Weight(s) {
      ProductPositive(Weight(s') - Weight(s), d);
    }
  }

  // ----- the mean balances the deviations

  function Deviation(x: PeerSample -> real, m: real): PeerSample -> real {
    (s: PeerSample) => Weight(s) * (x(s) - m)
  }

  function Weighted(x: PeerSample -> real): PeerSample -> real {
    (s: PeerSample) => Weight(s) * x(s)
  }

  lemma {:induction false} SumDeviations(x: PeerSample -> real, kept: seq<PeerSample>, m: real)
    ensures Sum(Deviation(x, m), kept) == Sum(Weighted(x), kept) - m * Sum(Weight, kept)
  {
    hide Weight;
    if |kept| > 0 {
      SumDeviations(x, kept[..|kept| - 1], m);
      var w, v := Weight(kept[|kept| - 1]), x(kept[|kept| - 1]);
      assert w * (v - m) == w * v - m * w;
    }
  }

  lemma {:induction false} SumPointwise(f: PeerSample -> real, g: PeerSample -> real, s: seq<PeerSample>)
    requires forall i :: 0 <= i < |s| ==> f(s[i]) == g(s[i])
    ensures Sum(f, s) == Sum(g, s)
  {
    if |s| > 0 {
      SumPointwise(f, g, s[..|s| - 1]);
    }
  }

  lemma WeightedIs(s: PeerSample)
    ensures Weighted(OffsetOf)(s) == WeightedOffset(s) && Weighted(DelayOf)(s) == WeightedDelay(s)
  {
    hide Weight;
    assert OffsetOf(s) == s.offsetMedian && DelayOf(s) == s.delayMedian;
  }

  lemma BalancePoint(total: real, sum: real, m: real)
    requires total > 0.0
    ensures sum - m * total == 0.0 <==> m == sum / total
  {
    assert sum / total * total == sum;
    if m * total == sum {
      assert (m - sum / total) * total == 0.0;
    }
  }

  /** The fused offset and delay are the only points about which the weighted deviations of
      the kept samples cancel. */
  lemma MeanBalances(kept: seq<PeerSample>, m: real)
    requires Sum(Weight, kept) > 0.0
    ensures Sum(Deviation(OffsetOf, m), kept) == 0.0 <==> m == StatsOf(kept).meanOffset
    ensures Sum(Deviation(DelayOf, m), kept) == 0.0 <==> m == StatsOf(kept).meanDelay
  {
    hide Sum, Weight;
    SumDeviations(OffsetOf, kept, m);
    SumDeviations(DelayOf, kept, m);
    forall i | 0 <= i < |kept|
      ensures Weighted(OffsetOf)(kept[i]) == WeightedOffset(kept[i])
      ensures Weighted(DelayOf)(kept[i]) == WeightedDelay(kept[i])
    {
      WeightedIs(kept[i]);
    }
    SumPointwise(Weighted(OffsetOf), WeightedOffset, kept);
    SumPointwise(Weighted(DelayOf), WeightedDelay, kept);
    BalancePoint(Sum(Weight, kept), Sum(WeightedOffset, kept), m);
    BalancePoint(Sum(Weight, kept), Sum(WeightedDelay, kept), m);
  }

  lemma WeightedBand(s: PeerSample, lo: real, hi: real)
    requires s.peerWeight >= 0.0 && lo <= s.offsetMedian <= hi
    ensures Band(lo, hi, Weight(s), WeightedOffset(s))
  {
    WeightSign(s);
    hide Weight;
    ProductNonNegative(Weight(s), s.offsetMedian - lo);
    ProductNonNegative(Weight(s), hi - s.offsetMedian);
  }

  lemma WeightedSumBand(kept: seq<PeerSample>, lo: real, hi: real)
    requires NonNegativeWeights(kept)
    requires forall i :: 0 <= i < |kept| ==> lo <= kept[i].offsetMedian <= hi
    ensures Band(lo, hi, Sum(Weight, kept), Sum(WeightedOffset, kept))
  {
    hide Band, Weight, WeightedOffset, Sum;
    forall i | 0 <= i < |kept| ensures Band(lo, hi, Weight(kept[i]), WeightedOffset(kept[i])) {
      WeightedBand(kept[i], lo, hi);
    }
    SumBand(WeightedOffset, Weight, kept, lo, hi);
  }

  lemma PlainSumBand(kept: seq<PeerSample>, lo: real, hi: real)
    requires forall i :: 0 <= i < |kept| ==> lo <= kept[i].offsetMedian <= hi
    ensures Band(lo, hi, |kept| as real, Sum(OffsetOf, kept))
  {
    forall i | 0 <= i < |kept| ensures Band(lo, hi, One(kept[i]), OffsetOf(kept[i])) {
      assert lo * 1.0 <= kept[i].offsetMedian <= hi * 1.0;
    }
    hide Band, Sum;
    SumBand(OffsetOf, One, kept, lo, hi);
    SumOnes(kept);
  }

  lemma MeanBetween(weighted: PeerSample -> real, plain: PeerSample -> real, kept: seq<PeerSample>, lo: real, hi: real)
    requires |kept| > 0
    requires Band(lo, hi, Sum(Weight, kept), Sum(weighted, kept))
    requires Band(lo, hi, |kept| as real, Sum(plain, kept))
    ensures lo <= MeanOf(weighted, plain, kept) <= hi
  {
    hide Band, Sum;
    if Sum(Weight, kept) > 0.0 {
      BandQuotient(lo, hi, Sum(Weight, kept), Sum(weighted, kept));
    } else {
      BandQuotient(lo, hi, |kept| as real, Sum(plain, kept));
    }
  }

  lemma MeanInHull(kept: seq<PeerSample>, lo: real, hi: real)
    requires |kept| > 0 && NonNegativeWeights(kept)
    requires forall i :: 0 <= i < |kept| ==> lo <= kept[i].offsetMedian <= hi
    ensures lo <= StatsOf(kept).meanOffset <= hi
  {
    hide Band, MeanOf;
    WeightedSumBand(kept, lo, hi);
    PlainSumBand(kept, lo, hi);
    MeanBetween(WeightedOffset, OffsetOf, kept, lo, hi);
  }
}
