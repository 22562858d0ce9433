/** How many faulty peers the selection, trimming and weighting of src/time/fuse.rs tolerate. */
module Breakdown {
  import opened Wrappers
  import opened Numeric
  import opened StableSort
  import opened RobustMedian
  import opened Fusion

  /** What one fusion step computes from its gathered samples, src/net/node.rs lines 439-448. */
  function Fuse(samples: seq<PeerSample>, quantile: real, trimRatio: real): Outcome<TrimmedStats> {
    TrimmedStatsOf(SelectBestPeers(samples, quantile), trimRatio)
  }

  /** Of k selected samples, t trimmed at each end, f faulty: the condition for safety. */
  predicate Tolerated(k: nat, t: nat, f: nat) {
    f <= t && f + t < k
  }

  function SelectedCount(samples: seq<PeerSample>, quantile: real): nat {
    |SelectBestPeers(samples, quantile)|
  }

  lemma NonNegativeWeightsAfterSort(key: PeerSample -> real, samples: seq<PeerSample>)
    requires NonNegativeWeights(samples)
    ensures NonNegativeWeights(SortBy(key, samples))
  {
    SortContents(key, samples);
    var r := SortBy(key, samples);
    forall i | 0 <= i < |r| ensures r[i].peerWeight >= 0.0 {
      assert r[i] in multiset(samples);
    }
  }

  /** Trimming: with at most f samples outside the band, the mean of what is kept is inside. */
  lemma TrimmedMeanInBand(samples: seq<PeerSample>, trimRatio: real, outside: PeerSample -> bool,
                          lo: real, hi: real, f: nat)
    requires NonNegativeWeights(samples)
    requires forall x :: !outside(x) ==> lo <= OffsetOf(x) <= hi
    requires Count(outside, samples) <= f
    requires Tolerated(|samples|, TrimCount(|samples|, trimRatio), f)
    ensures TrimmedStatsOf(samples, trimRatio).Returned?
    ensures lo <= TrimmedStatsOf(samples, trimRatio).value.meanOffset <= hi
  {
    hide SortBy, Count, TrimCount, StatsOf, KeptOf;
    var t := TrimCount(|samples|, trimRatio);
    TrimCountBelow(|samples|, trimRatio);
    TrimmingOutcome(samples, trimRatio);
    var kept := KeptOf(samples, trimRatio).value;
    NonNegativeWeightsAfterSort(OffsetOf, samples);
    forall i | 0 <= i < |kept| ensures lo <= kept[i].offsetMedian <= hi {
      OrderStatisticInBand(OffsetOf, samples, outside, lo, hi, f, t + i);
    }
    MeanInHull(kept, lo, hi);
  }

  lemma SelectionCounts(samples: seq<PeerSample>, quantile: real, outside: PeerSample -> bool)
    ensures Count(outside, SelectBestPeers(samples, quantile)) <= Count(outside, samples)
    ensures NonNegativeWeights(samples) ==> NonNegativeWeights(SelectBestPeers(samples, quantile))
  {
    if |samples| > 0 {
      KeepCountBounds(|samples|, quantile);
      CountSort(PeerScore, outside, samples);
      CountPrefix(outside, SortBy(PeerScore, samples), KeepCount(|samples|, quantile));
      if NonNegativeWeights(samples) {
        NonNegativeWeightsAfterSort(PeerScore, samples);
      }
    }
  }

  /** Selection followed by trimming, stated for any band: the faulty samples may claim any
      offset, delay, jitter and non-negative weight. */
  lemma FusedMeanInBand(samples: seq<PeerSample>, quantile: real, trimRatio: real,
                        outside: PeerSample -> bool, lo: real, hi: real, f: nat)
    requires NonNegativeWeights(samples)
    requires forall x :: !outside(x) ==> lo <= OffsetOf(x) <= hi
    requires Count(outside, samples) <= f
    requires var k := SelectedCount(samples, quantile); Tolerated(k, TrimCount(k, trimRatio), f)
    ensures Fuse(samples, quantile, trimRatio).Returned?
    ensures lo <= Fuse(samples, quantile, trimRatio).value.meanOffset <= hi
  {
    SelectionCounts(samples, quantile, outside);
    TrimmedMeanInBand(SelectBestPeers(samples, quantile), trimRatio, outside, lo, hi, f);
  }

  ghost predicate FusedBetweenHonest(samples: seq<PeerSample>, quantile: real, trimRatio: real, honest: seq<bool>)
    requires |honest| == |samples|
  {
    var r := Fuse(samples, quantile, trimRatio);
    r.Returned? && BetweenHonest(r.value.meanOffset, OffsetOf, samples, honest)
  }

  /** The breakdown bound: the fused mean lies between two honest offset medians. */
  lemma FusionResistsFaults(samples: seq<PeerSample>, quantile: real, trimRatio: real, honest: seq<bool>, f: nat)
    requires NonNegativeWeights(samples) && Marks(samples, honest, f)
    requires var k := SelectedCount(samples, quantile); Tolerated(k, TrimCount(k, trimRatio), f)
    ensures FusedBetweenHonest(samples, quantile, trimRatio, honest)
    ensures var k := SelectedCount(samples, quantile);
            |Fuse(samples, quantile, trimRatio).value.kept| == KeptCount(k, TrimCount(k, trimRatio))
  {
    KeepCountBounds(|samples|, quantile);
    var lo, hi, outside := HonestBand(OffsetOf, samples, honest, f);
    forall x | !outside(x) ensures lo <= OffsetOf(x) <= hi { assert Within(OffsetOf(x), lo, hi); }
    FusedMeanInBand(samples, quantile, trimRatio, outside, lo, hi, f);
    TrimmingOutcome(SelectBestPeers(samples, quantile), trimRatio);
    assert Within(Fuse(samples, quantile, trimRatio).value.meanOffset, lo, hi);
  }

  // ----- the bound is exact

  predicate AtMostZero(s: PeerSample) { s.offsetMedian <= 0.0 }

  /** The honest peer reports offset zero; the faulty one reports one, with a better score. */
  ghost predicate Adversarial(good: PeerSample, bad: PeerSample) {
    && good.peerWeight == 1.0 && good.jitterMedian == 0.0 && good.offsetMedian == 0.0
    && bad.peerWeight == 1.0 && bad.jitterMedian == 0.0 && bad.offsetMedian == 1.0
    && PeerScore(bad) <= PeerScore(good)
  }

  lemma AdversaryExists() returns (good: PeerSample, bad: PeerSample)
    ensures Adversarial(good, bad)
  {
    good, bad := PeerSample(0, 1.0, 0.0, 1.0, 0.0), PeerSample(1, 1.0, 1.0, 0.0, 0.0);
  }

  /** f faulty peers among m. */
  function Attack(m: nat, f: nat, good: PeerSample, bad: PeerSample): (r: seq<PeerSample>)
    requires f <= m
    ensures |r| == m
    ensures forall i :: 0 <= i < m ==> r[i] == if i < f then bad else good
  {
    TwoLevels(m, m - f, bad, good)
  }

  lemma SelectionOfSorted(samples: seq<PeerSample>, quantile: real)
    requires |samples| > 0 && SortBy(PeerScore, samples) == samples
    ensures KeepCount(|samples|, quantile) <= |samples|
    ensures SelectBestPeers(samples, quantile) == samples[..KeepCount(|samples|, quantile)]
  {
    KeepCountBounds(|samples|, quantile);
  }

  /** How many of the k selected samples are faulty under the attack. */
  function Intruders(k: nat, f: nat): (b: nat)
    ensures b <= k
  {
    if f < k then f else k
  }

  lemma AttackPrefix(m: nat, f: nat, k: nat, good: PeerSample, bad: PeerSample)
    requires f <= m && k <= m
    ensures Attack(m, f, good, bad)[..k] == Attack(k, Intruders(k, f), good, bad)
  {
  }

  lemma AttackSelected(m: nat, f: nat, quantile: real, good: PeerSample, bad: PeerSample)
    requires 0 < m && f <= m && Adversarial(good, bad)
    ensures var k := KeepCount(m, quantile);
            SelectBestPeers(Attack(m, f, good, bad), quantile) == Attack(k, Intruders(k, f), good, bad)
  {
    TwoLevelsSorted(PeerScore, m, m - f, bad, good);
    SelectionOfSorted(Attack(m, f, good, bad), quantile);
    AttackPrefix(m, f, KeepCount(m, quantile), good, bad);
  }

  lemma UnitWeight(s: PeerSample)
    requires s.peerWeight == 1.0 && s.jitterMedian == 0.0
    ensures Weight(s) == 1.0 && WeightedOffset(s) == s.offsetMedian
  {
  }

  lemma MeanPositive(kept: seq<PeerSample>)
    requires Sum(Weight, kept) > 0.0 && Sum(WeightedOffset, kept) > 0.0
    ensures StatsOf(kept).meanOffset > 0.0
  {
  }

  /** When the last kept sample is faulty and the honest offsets are zero, the mean is positive. */
  lemma MeanAboveZero(kept: seq<PeerSample>)
    requires |kept| > 0 && kept[|kept| - 1].offsetMedian == 1.0
    requires forall i :: 0 <= i < |kept| ==>
               kept[i].peerWeight == 1.0 && kept[i].jitterMedian == 0.0 && kept[i].offsetMedian >= 0.0
    ensures StatsOf(kept).meanOffset > 0.0
  {
    forall i | 0 <= i < |kept| ensures Weight(kept[i]) == 1.0 && WeightedOffset(kept[i]) == kept[i].offsetMedian {
      UnitWeight(kept[i]);
    }
    SumDominates(Weight, kept, |kept| - 1);
    SumDominates(WeightedOffset, kept, |kept| - 1);
    MeanPositive(kept);
  }

  lemma AttackLevels(k: nat, b: nat, i: nat, good: PeerSample, bad: PeerSample)
    requires b <= k && i < k
    ensures SortBy(OffsetOf, Attack(k, b, good, bad))[i] in [bad, good]
  {
    SortContents(OffsetOf, Attack(k, b, good, bad));
    assert SortBy(OffsetOf, Attack(k, b, good, bad))[i] in multiset(Attack(k, b, good, bad));
  }

  lemma AttackRank(k: nat, b: nat, i: nat, good: PeerSample, bad: PeerSample)
    requires b <= k && k - b <= i < k && Adversarial(good, bad)
    ensures SortBy(OffsetOf, Attack(k, b, good, bad))[i] == bad
  {
    var s := Attack(k, b, good, bad);
    SortSorted(OffsetOf, s);
    CountSort(OffsetOf, AtMostZero, s);
    TwoLevelsCount(AtMostZero, k, k - b, bad, good);
    RankOfDownSet(OffsetOf, AtMostZero, SortBy(OffsetOf, s), i);
    AttackLevels(k, b, i, good, bad);
  }

  lemma AttackTrimmed(k: nat, b: nat, trimRatio: real, good: PeerSample, bad: PeerSample)
    requires b <= k && !Tolerated(k, TrimCount(k, trimRatio), b) && Adversarial(good, bad)
    ensures var slice := KeptOf(Attack(k, b, good, bad), trimRatio);
            slice.Returned? ==> StatsOf(slice.value).meanOffset > 0.0
  {
    var t := TrimCount(k, trimRatio);
    var slice := KeptOf(Attack(k, b, good, bad), trimRatio);
    TrimmingOutcome(Attack(k, b, good, bad), trimRatio);
    if slice.Returned? {
      forall i | 0 <= i < |slice.value| ensures slice.value[i] in [bad, good] {
        AttackLevels(k, b, t + i, good, bad);
      }
      AttackRank(k, b, t + |slice.value| - 1, good, bad);
      MeanAboveZero(slice.value);
    }
  }

  lemma AttackSucceeds(m: nat, quantile: real, trimRatio: real, f: nat, good: PeerSample, bad: PeerSample)
    requires 0 < m && f <= m && Adversarial(good, bad)
    requires var k := KeepCount(m, quantile); !Tolerated(k, TrimCount(k, trimRatio), f)
    ensures var r := Fuse(Attack(m, f, good, bad), quantile, trimRatio); r.Panicked? || r.value.meanOffset > 0.0
  {
    var k := KeepCount(m, quantile);
    AttackSelected(m, f, quantile, good, bad);
    AttackTrimmed(k, Intruders(k, f), trimRatio, good, bad);
  }

  function AttackHonesty(m: nat, f: nat): (r: seq<bool>)
    requires f <= m
    ensures |r| == m
    ensures forall i :: 0 <= i < m ==> r[i] == (f <= i)
  {
    TwoLevels(m, m - f, false, true)
  }

  lemma {:induction false} AttackMarked(m: nat, f: nat)
    requires f <= m
    ensures Count(Dishonest, AttackHonesty(m, f)) == f
  {
    var s := AttackHonesty(m, f);
    if f > 0 {
      assert s[1..] == AttackHonesty(m - 1, f - 1);
      AttackMarked(m - 1, f - 1);
    } else {
      CountNone(Dishonest, s);
    }
  }

  /** Whatever m samples arrive, f of them faulty, the fused mean stays among the honest offsets. */
  ghost predicate FusionTolerates(m: nat, quantile: real, trimRatio: real, f: nat) {
    forall samples: seq<PeerSample>, honest: seq<bool> ::
      |samples| == m && NonNegativeWeights(samples) && Marks(samples, honest, f)
      ==> FusedBetweenHonest(samples, quantile, trimRatio, honest)
  }

  /** The breakdown point of the whole pipeline: the bound cannot be improved for any number
      of peers, quantile and trim ratio. */
  lemma FusionBreakdownPoint(m: nat, quantile: real, trimRatio: real, f: nat)
    requires 0 < m && f <= m
    ensures var k := KeepCount(m, quantile);
            FusionTolerates(m, quantile, trimRatio, f) <==> Tolerated(k, TrimCount(k, trimRatio), f)
  {
    var k := KeepCount(m, quantile);
    if Tolerated(k, TrimCount(k, trimRatio), f) {
      forall samples: seq<PeerSample>, honest: seq<bool>
        | |samples| == m && NonNegativeWeights(samples) && Marks(samples, honest, f)
        ensures FusedBetweenHonest(samples, quantile, trimRatio, honest)
      {
        FusionResistsFaults(samples, quantile, trimRatio, honest, f);
      }
    } else {
      var good, bad := AdversaryExists();
      var samples, honest := Attack(m, f, good, bad), AttackHonesty(m, f);
      AttackSucceeds(m, quantile, trimRatio, f, good, bad);
      AttackMarked(m, f);
      assert Marks(samples, honest, f) && NonNegativeWeights(samples);
      assert !FusedBetweenHonest(samples, quantile, trimRatio, honest);
    }
  }
}
