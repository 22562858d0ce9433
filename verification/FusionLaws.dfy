/** Symmetries of the fusion step of src/time/fuse.rs: shifting every offset shifts the fused
    offset and nothing else, and the order of the samples matters only through ties. */
module FusionLaws {
  import opened Wrappers
  import opened Numeric
  import opened StableSort
  import opened RobustMedian
  import opened Fusion
  import opened Breakdown

  // ----- translation

  function Shifted(c: real): PeerSample -> PeerSample {
    (s: PeerSample) => s.(offsetMedian := s.offsetMedian + c)
  }

  lemma ShiftKeepsScores(c: real)
    ensures KeepsOrder(PeerScore, PeerScore, Shifted(c))
    ensures KeepsOrder(OffsetOf, OffsetOf, Shifted(c))
  {
  }

  lemma MapSlice<T, U>(g: T -> U, s: seq<T>, i: nat, j: nat)
    requires i <= j <= |s|
    ensures Map(g, s)[i..j] == Map(g, s[i..j])
  {
  }

  /** Selection picks the same peers. */
  lemma SelectionTranslates(samples: seq<PeerSample>, quantile: real, c: real)
    ensures SelectBestPeers(Map(Shifted(c), samples), quantile) == Map(Shifted(c), SelectBestPeers(samples, quantile))
  {
    hide SortBy, PeerScore, KeepCount, Shifted, Map, KeepsOrder;
    if |samples| > 0 {
      ShiftKeepsScores(c);
      SortMap(PeerScore, PeerScore, Shifted(c), samples);
      KeepCountBounds(|samples|, quantile);
      MapSlice(Shifted(c), SortBy(PeerScore, samples), 0, KeepCount(|samples|, quantile));
    }
  }

  ghost predicate KeptShifted(a: Outcome<seq<PeerSample>>, b: Outcome<seq<PeerSample>>, c: real) {
    a.Returned? == b.Returned? && (a.Returned? ==> b.value == Map(Shifted(c), a.value))
  }

  /** Trimming keeps the same peers, and panics in the same cases. */
  lemma TrimmingTranslates(samples: seq<PeerSample>, trimRatio: real, c: real)
    ensures KeptShifted(KeptOf(samples, trimRatio), KeptOf(Map(Shifted(c), samples), trimRatio), c)
  {
    hide SortBy, OffsetOf, TrimCount, Shifted, Map, KeepsOrder;
    ShiftKeepsScores(c);
    SortMap(OffsetOf, OffsetOf, Shifted(c), samples);
    var n := |samples|;
    var trim := TrimCount(n, trimRatio);
    var start := if trim < n then trim else n;
    var end := if n - start < start + 1 then start + 1 else n - start;
    if end <= n {
      MapSlice(Shifted(c), SortBy(OffsetOf, samples), start, end);
    }
  }

  lemma WeightedShift(s: PeerSample, c: real)
    ensures Weight(Shifted(c)(s)) == Weight(s)
    ensures WeightedOffset(Shifted(c)(s)) == WeightedOffset(s) + Product(c, Weight(s))
    ensures WeightedDelay(Shifted(c)(s)) == WeightedDelay(s)
    ensures OffsetOf(Shifted(c)(s)) == OffsetOf(s) + c
    ensures DelayOf(Shifted(c)(s)) == DelayOf(s)
  {
  }

  lemma ProductAdds(c: real, x: real, y: real)
    ensures Product(c, x + y) == Product(c, x) + Product(c, y)
    ensures Product(c, x + 1.0) == Product(c, x) + c
    ensures Product(c, 0.0) == 0.0
  {
  }

  lemma {:induction false} SumsTranslate(kept: seq<PeerSample>, c: real)
    ensures Sum(Weight, Map(Shifted(c), kept)) == Sum(Weight, kept)
    ensures Sum(WeightedDelay, Map(Shifted(c), kept)) == Sum(WeightedDelay, kept)
    ensures Sum(WeightedOffset, Map(Shifted(c), kept)) == Sum(WeightedOffset, kept) + Product(c, Sum(Weight, kept))
    ensures Sum(OffsetOf, Map(Shifted(c), kept)) == Sum(OffsetOf, kept) + Product(c, |kept| as real)
    ensures Sum(DelayOf, Map(Shifted(c), kept)) == Sum(DelayOf, kept)
  {
    hide Weight, WeightedOffset, WeightedDelay, OffsetOf, DelayOf, Product, Map;
    if |kept| == 0 {
      ProductAdds(c, 0.0, 0.0);
    } else {
      var init, last := kept[..|kept| - 1], kept[|kept| - 1];
      SumsTranslate(init, c);
      MapSlice(Shifted(c), kept, 0, |kept| - 1);
      WeightedShift(last, c);
      ProductAdds(c, Sum(Weight, init), Weight(last));
      ProductAdds(c, |init| as real, 1.0);
    }
  }

  lemma QuotientShift(sum: real, c: real, total: real)
    requires total > 0.0
    ensures (sum + Product(c, total)) / total == sum / total + c
  {
  }

  ghost predicate StatsShifted(a: TrimmedStats, b: TrimmedStats, c: real) {
    && b.meanOffset == a.meanOffset + c
    && b.meanDelay == a.meanDelay
    && b.totalWeight == a.totalWeight
    && b.kept == Map(Shifted(c), a.kept)
  }

  lemma MeanTranslates(kept: seq<PeerSample>, c: real)
    requires |kept| > 0
    ensures StatsShifted(StatsOf(kept), StatsOf(Map(Shifted(c), kept)), c)
  {
    hide Sum, Product, Shifted, Map;
    SumsTranslate(kept, c);
    if Sum(Weight, kept) > 0.0 {
      QuotientShift(Sum(WeightedOffset, kept), c, Sum(Weight, kept));
    } else {
      QuotientShift(Sum(OffsetOf, kept), c, |kept| as real);
    }
  }

  ghost predicate OutcomeShifted(a: Outcome<TrimmedStats>, b: Outcome<TrimmedStats>, c: real) {
    a.Returned? == b.Returned? && (a.Returned? ==> StatsShifted(a.value, b.value, c))
  }

  /** Shifting every offset median by c shifts the fused offset by exactly c; the kept peers,
      the mean delay and the total weight stay the same. */
  lemma FusionTranslates(samples: seq<PeerSample>, quantile: real, trimRatio: real, c: real)
    ensures OutcomeShifted(Fuse(samples, quantile, trimRatio), Fuse(Map(Shifted(c), samples), quantile, trimRatio), c)
  {
    hide StatsOf, KeptOf, SelectBestPeers;
    var selected := SelectBestPeers(samples, quantile);
    SelectionTranslates(samples, quantile, c);
    TrimmingTranslates(selected, trimRatio, c);
    if KeptOf(selected, trimRatio).Returned? {
      TrimmingOutcome(selected, trimRatio);
      MeanTranslates(KeptOf(selected, trimRatio).value, c);
    }
  }

  ghost predicate SeriesShifted(a: seq<real>, b: seq<real>, c: real) {
    |a| == |b| && forall i :: 0 <= i < |a| ==> b[i] == a[i] + c
  }

  /** At the level of the stored series: shifting a non-empty offset series shifts its summary. */
  lemma SummaryTranslates(id: nat, weight: real, offsets: seq<real>, offsets': seq<real>,
                          delays: seq<real>, jitters: seq<real>, c: real)
    requires |offsets| > 0 && SeriesShifted(offsets, offsets', c)
    ensures FromSeries(id, weight, offsets', delays, jitters) ==
        Shifted(c)(FromSeries(id, weight, offsets, delays, jitters))
    ensures PeerScore(FromSeries(id, weight, offsets', delays, jitters)) ==
        PeerScore(FromSeries(id, weight, offsets, delays, jitters))
  {
    hide Sorted;
    MedianTranslates(offsets, offsets', c);
  }

  // ----- order of the samples

  ghost predicate Permuted<T>(a: seq<T>, b: seq<T>) {
    multiset(a) == multiset(b)
  }

  /** No element before position k ties with a different one from k on. */
  ghost predicate ClearCut<T>(key: T -> real, r: seq<T>, k: nat) {
    forall i, j :: 0 <= i < k <= j < |r| && key(r[i]) == key(r[j]) ==> r[i] == r[j]
  }

  lemma SameSizeSubset<T>(a: multiset<T>, b: multiset<T>)
    requires |a| == |b| && a <= b
    ensures a == b
  {
    assert b == a + (b - a);
  }

  lemma Surplus<T>(a: multiset<T>, b: multiset<T>) returns (e: T)
    requires |a| == |b| && a != b
    ensures a[e] > b[e]
  {
    if a <= b {
      SameSizeSubset(a, b);
    }
    e :| a[e] > b[e];
  }

  lemma InSuffix<T>(a: seq<T>, b: seq<T>, k: nat, e: T) returns (i: nat, j: nat)
    requires Permuted(a, b) && k <= |a| && k <= |b| && multiset(a[..k])[e] > multiset(b[..k])[e]
    ensures i < k && a[i] == e && k <= j < |b| && b[j] == e
  {
    assert a == a[..k] + a[k..] && b == b[..k] + b[k..];
    assert multiset(a)[e] == multiset(a[..k])[e] + multiset(a[k..])[e];
    assert multiset(b)[e] == multiset(b[..k])[e] + multiset(b[k..])[e];
    assert e in multiset(a[..k]) && e in multiset(b[k..]);
    assert e in a[..k] && e in b[k..];
    i :| 0 <= i < k && a[..k][i] == e;
    var l :| 0 <= l < |b| - k && b[k..][l] == e;
    j := k + l;
  }

  /** What one prefix has in surplus ties with what the other has. */
  lemma SurplusTies<T>(key: T -> real, a: seq<T>, b: seq<T>, k: nat, e: T, e': T) returns (i: nat, j: nat)
    requires Permuted(a, b) && SortedBy(key, a) && SortedBy(key, b) && k <= |a| == |b|
    requires multiset(a[..k])[e] > multiset(b[..k])[e] && multiset(b[..k])[e'] > multiset(a[..k])[e']
    ensures i < k <= j < |a| && a[i] == e && a[j] == e' && key(e) == key(e')
  {
    var j0, i0;
    i, j0 := InSuffix(a, b, k, e);
    i0, j := InSuffix(b, a, k, e');
    assert key(a[i]) <= key(a[j]) && key(b[i0]) <= key(b[j0]);
  }

  /** Two sorted arrangements of the same elements agree on what comes before a clear cut. */
  lemma ClearCutPrefix<T>(key: T -> real, a: seq<T>, b: seq<T>, k: nat)
    requires Permuted(a, b) && SortedBy(key, a) && SortedBy(key, b) && k <= |a| && ClearCut(key, a, k)
    ensures k <= |b| && Permuted(a[..k], b[..k])
  {
    SameLengths(a, b);
    if !Permuted(a[..k], b[..k]) {
      var e := Surplus(multiset(a[..k]), multiset(b[..k]));
      var e' := Surplus(multiset(b[..k]), multiset(a[..k]));
      var i, j := SurplusTies(key, a, b, k, e, e');
    }
  }

  lemma SwapAcross<T>(r: seq<T>, i: nat, j: nat, k: nat)
    requires i < k <= j < |r| && r[i] != r[j]
    ensures var b := r[i := r[j]][j := r[i]]; Permuted(b, r) && !Permuted(b[..k], r[..k])
  {
    var b := r[i := r[j]][j := r[i]];
    assert multiset(r[i := r[j]]) == multiset(r) - multiset{r[i]} + multiset{r[j]};
    assert b[..k] == r[..k][i := r[j]];
    assert multiset(b[..k]) == multiset(r[..k]) - multiset{r[i]} + multiset{r[j]};
    assert r[i] in r[..k];
    assert multiset(b[..k])[r[i]] == multiset(r[..k])[r[i]] - 1;
  }

  lemma SortedIsFixed<T>(key: T -> real, r: seq<T>)
    requires SortedBy(key, r)
    ensures SortBy(key, r) == r
  {
  }

  /** Exchanging a tied pair across the cut gives another sorted arrangement with another prefix. */
  lemma UnclearCut<T>(key: T -> real, r: seq<T>, k: nat) returns (b: seq<T>)
    requires SortedBy(key, r) && k <= |r| && !ClearCut(key, r, k)
    ensures |b| == |r| && Permuted(b, r) && SortBy(key, b) == b && !Permuted(b[..k], r[..k])
  {
    hide SortBy, Permuted;
    var i, j :| 0 <= i < k <= j < |r| && key(r[i]) == key(r[j]) && r[i] != r[j];
    b := r[i := r[j]][j := r[i]];
    SwapAcross(r, i, j, k);
    assert SortedBy(key, b);
    SortedIsFixed(key, b);
  }

  /** Every order in which the samples can arrive selects the same peers. */
  ghost predicate SelectionIgnoresOrder(samples: seq<PeerSample>, quantile: real) {
    forall b :: Permuted(b, samples) ==> Permuted(SelectBestPeers(b, quantile), SelectBestPeers(samples, quantile))
  }

  /** Selection ignores the arrival order exactly when no selected peer ties in score with a
      different peer that was not selected. */
  lemma SelectionOrder(samples: seq<PeerSample>, quantile: real)
    requires |samples| > 0
    ensures SelectionIgnoresOrder(samples, quantile) <==>
            ClearCut(PeerScore, SortBy(PeerScore, samples), KeepCount(|samples|, quantile))
  {
    hide SortBy, PeerScore, ClearCut, SortedBy, KeepCount;
    var r, k := SortBy(PeerScore, samples), KeepCount(|samples|, quantile);
    KeepCountBounds(|samples|, quantile);
    SortSorted(PeerScore, samples);
    SortContents(PeerScore, samples);
    if ClearCut(PeerScore, r, k) {
      forall b | Permuted(b, samples)
        ensures Permuted(SelectBestPeers(b, quantile), SelectBestPeers(samples, quantile))
      {
        SameLengths(b, samples);
        SortSorted(PeerScore, b);
        SortContents(PeerScore, b);
        ClearCutPrefix(PeerScore, r, SortBy(PeerScore, b), k);
      }
    } else {
      var b := UnclearCut(PeerScore, r, k);
      assert SelectBestPeers(b, quantile) == b[..k];
      assert !Permuted(SelectBestPeers(b, quantile), SelectBestPeers(samples, quantile));
    }
  }

  /** Trimming and averaging ignore the order when offset medians tell the samples apart. */
  lemma TrimmingOrder(a: seq<PeerSample>, b: seq<PeerSample>, trimRatio: real)
    requires Permuted(a, b) && KeysIdentify(OffsetOf, a)
    ensures TrimmedStatsOf(a, trimRatio) == TrimmedStatsOf(b, trimRatio)
  {
    hide KeysIdentify, SortBy, OffsetOf;
    SameLengths(a, b);
    SortOfPermutation(OffsetOf, a, b);
  }

  /** Input-order independence of the whole step.  Distinct scores and distinct offset medians
      are a special case of the two conditions. */
  lemma FusionOrder(a: seq<PeerSample>, b: seq<PeerSample>, quantile: real, trimRatio: real)
    requires Permuted(b, a)
    requires |a| > 0 ==> ClearCut(PeerScore, SortBy(PeerScore, a), KeepCount(|a|, quantile))
    requires KeysIdentify(OffsetOf, SelectBestPeers(a, quantile))
    ensures Fuse(b, quantile, trimRatio) == Fuse(a, quantile, trimRatio)
  {
    hide KeysIdentify, SelectBestPeers, TrimmedStatsOf, ClearCut, SortBy, KeepCount;
    SameLengths(a, b);
    if |a| > 0 {
      SelectionOrder(a, quantile);
      assert Permuted(SelectBestPeers(b, quantile), SelectBestPeers(a, quantile));
      TrimmingOrder(SelectBestPeers(a, quantile), SelectBestPeers(b, quantile), trimRatio);
    }
  }

  ghost predicate PairwiseDistinct(key: PeerSample -> real, s: seq<PeerSample>) {
    forall i, j :: 0 <= i < j < |s| ==> key(s[i]) != key(s[j])
  }

  lemma DistinctIdentify(key: PeerSample -> real, s: seq<PeerSample>)
    requires PairwiseDistinct(key, s)
    ensures KeysIdentify(key, s)
  {
  }

  lemma InSorted(key: PeerSample -> real, s: seq<PeerSample>, x: PeerSample)
    requires x in SortBy(key, s)
    ensures x in s
  {
    SortContents(key, s);
    assert x in multiset(s);
  }

  lemma IdentifiedAfterSort(key: PeerSample -> real, key': PeerSample -> real, s: seq<PeerSample>, k: nat)
    requires KeysIdentify(key, s) && k <= |s|
    ensures KeysIdentify(key, SortBy(key', s)[..k]) && ClearCut(key, SortBy(key', s), k)
  {
    hide SortBy;
    var r := SortBy(key', s);
    forall x, y | x in r && y in r && key(x) == key(y) ensures x == y {
      InSorted(key', s, x);
      InSorted(key', s, y);
    }
  }

  /** With pairwise distinct scores and pairwise distinct offset medians, any order of the
      samples gives the same fused offset, delay, weight and kept peers. */
  lemma DistinctSamplesFuseAlike(a: seq<PeerSample>, b: seq<PeerSample>, quantile: real, trimRatio: real)
    requires Permuted(b, a) && PairwiseDistinct(PeerScore, a) && PairwiseDistinct(OffsetOf, a)
    ensures Fuse(b, quantile, trimRatio) == Fuse(a, quantile, trimRatio)
  {
    hide PairwiseDistinct, ClearCut, SortBy, KeepCount, Fuse;
    if |a| > 0 {
      KeepCountBounds(|a|, quantile);
      DistinctIdentify(PeerScore, a);
      DistinctIdentify(OffsetOf, a);
      IdentifiedAfterSort(PeerScore, PeerScore, a, KeepCount(|a|, quantile));
      IdentifiedAfterSort(OffsetOf, PeerScore, a, KeepCount(|a|, quantile));
    }
    assert KeysIdentify(OffsetOf, SelectBestPeers(a, quantile));
    FusionOrder(a, b, quantile, trimRatio);
  }
}
