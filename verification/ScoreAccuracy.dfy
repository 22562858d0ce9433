/** The accuracy that the score of src/time/fuse.rs buys.  A peer's score is the size of its
    median delay plus that of its median jitter, lines 139-141, and the best scores are
    selected, lines 125-137.  Since an honest offset is within half of its own delay of the
    truth, small scores bound the error without any bound common to all exchanges. */
module ScoreAccuracy {
  import opened Numeric
  import opened StableSort
  import opened RobustMedian
  import opened Fusion
  import opened Breakdown
  import opened FusionLoop
  import opened RunAccuracy

  // ----- one fusion

  /** The sample's offset is farther from c than its score admits. */
  function Overconfident(c: real, slack: real): PeerSample -> bool {
    (x: PeerSample) => Abs(x.offsetMedian - c) > (PeerScore(x) + slack) / 2.0
  }

  function ScoreAtMost(score: real): PeerSample -> bool {
    (x: PeerSample) => PeerScore(x) <= score
  }

  /** When enough samples score at most S, nothing worse is selected. */
  lemma SelectedScores(samples: seq<PeerSample>, quantile: real, score: real, i: nat)
    requires |samples| > 0 && Count(ScoreAtMost(score), samples) >= KeepCount(|samples|, quantile)
    requires i < |SelectBestPeers(samples, quantile)|
    ensures PeerScore(SelectBestPeers(samples, quantile)[i]) <= score
  {
    hide KeepCount, SortBy, Count, PeerScore;
    KeepCountBounds(|samples|, quantile);
    SortSorted(PeerScore, samples);
    CountSort(PeerScore, ScoreAtMost(score), samples);
    RankOfDownSet(PeerScore, ScoreAtMost(score), SortBy(PeerScore, samples), i);
  }

  /** With k samples of score at most S among the gathered ones, of which k are selected and t
      trimmed at each end, and at most f overconfident ones, the fused mean is within
      (S + slack) / 2 of c. */
  lemma ScoreBuysAccuracy(samples: seq<PeerSample>, quantile: real, trimRatio: real, c: real, slack: real,
      score: real, f: nat)
    requires |samples| > 0 && NonNegativeWeights(samples)
    requires Count(ScoreAtMost(score), samples) >= KeepCount(|samples|, quantile)
    requires Count(Overconfident(c, slack), samples) <= f
    requires var k := KeepCount(|samples|, quantile); Tolerated(k, TrimCount(k, trimRatio), f)
    ensures var r := Fuse(samples, quantile, trimRatio);
            r.Returned? && Abs(r.value.meanOffset - c) <= (score + slack) / 2.0
  {
    hide KeepCount, TrimCount, Count, SelectBestPeers, PeerScore, TrimmedStatsOf;
    var selected := SelectBestPeers(samples, quantile);
    var lo, hi := c - (score + slack) / 2.0, c + (score + slack) / 2.0;
    var outside := BeyondSample(lo, hi);
    forall i | 0 <= i < |selected| && outside(selected[i]) ensures Overconfident(c, slack)(selected[i]) {
      SelectedScores(samples, quantile, score, i);
    }
    SelectionCounts(samples, quantile, Overconfident(c, slack));
    CountPointwise(outside, Overconfident(c, slack), selected, selected);
    TrimmedMeanInBand(selected, trimRatio, outside, lo, hi, f);
  }

  // ----- what the loop gathers

  function First(p: (real, real)): real { p.0 }

  function Second(p: (real, real)): real { p.1 }

  /** The series hold, in whatever order, the offsets and delays of measurements that are each
      within half of their own delay, plus slack, of c. */
  ghost predicate MeasuredBy(s: Source, pairs: seq<(real, real)>, c: real, slack: real) {
    && multiset(Values(s.offsets)) == multiset(Map(First, pairs))
    && multiset(Values(s.delays)) == multiset(Map(Second, pairs))
    && forall i :: 0 <= i < |pairs| ==> WithinDelay(pairs[i].0, pairs[i].1, c, slack)
  }

  ghost predicate Measured(s: Source, c: real, slack: real) {
    exists pairs :: MeasuredBy(s, pairs, c, slack)
  }

  /** The median offset of such a source is as accurate as its score says. */
  lemma MeasuredIsNotOverconfident(x: PeerSample, s: Source, c: real, slack: real)
    requires Summarises(x, s) && Measured(s, c, slack)
    ensures !Overconfident(c, slack)(x)
  {
    hide Values, Median, Map;
    var pairs :| MeasuredBy(s, pairs, c, slack);
    var offsets, delays := Map(First, pairs), Map(Second, pairs);
    SameLengths(Values(s.offsets), offsets);
    SameLengths(Values(s.delays), delays);
    MedianOfPermutation(Values(s.offsets), offsets);
    MedianOfPermutation(Values(s.delays), delays);
    SomeMedian(offsets);
    SomeMedian(delays);
    assert Median(offsets).value == x.offsetMedian && Median(delays).value == x.delayMedian;
    assert AllWithinDelay(offsets, delays, c, slack);
    MedianWithinDelay(offsets, delays, c, slack);
  }

  lemma SomeMedian(values: seq<real>)
    ensures Median(values).Some? <==> |values| > 0
  {
  }

  /** In one iteration: enough participants score at most S, and few are not measured. */
  ghost predicate ScoredSafe(cfg: FilterCfg, inputs: Inputs, c: real, slack: real, score: real) {
    var sources := Participants(cfg, inputs);
    |sources| > 0 ==>
      var k := KeepCount(|sources|, cfg.bestQuantile);
      && Count(ScoreAtMost(score), Gathered(cfg, inputs)) >= k
      && Tolerated(k, TrimCount(k, cfg.trimRatio), Count(s => !Measured(s, c, slack), sources))
  }

  lemma ScoredMeans(cfg: FilterCfg, inputs: Inputs, c: real, slack: real, score: real)
    requires ScoredSafe(cfg, inputs, c, slack, score)
    ensures FusesWithin(cfg, inputs, c - (score + slack) / 2.0, c + (score + slack) / 2.0)
  {
    hide Gathered, Participants, Summarises, Fuse, Count, TrimCount, KeepCount, Measured, Overconfident, ScoreAtMost;
    var samples, sources := Gathered(cfg, inputs), Participants(cfg, inputs);
    var unmeasured := s => !Measured(s, c, slack);
    GatheredSummarises(cfg, inputs);
    if |samples| > 0 {
      forall i | 0 <= i < |samples| && Overconfident(c, slack)(samples[i]) ensures unmeasured(sources[i]) {
        if Measured(sources[i], c, slack) {
          MeasuredIsNotOverconfident(samples[i], sources[i], c, slack);
        }
      }
      CountPointwise(Overconfident(c, slack), unmeasured, samples, sources);
      SummariesWeigh(samples, sources);
      ScoreBuysAccuracy(samples, cfg.bestQuantile, cfg.trimRatio, c, slack, score, Count(unmeasured, sources));
    }
  }

  /** Over whole runs: while every iteration is safe at score S, every fused mean and smoothed
      offset is within (S + slack) / 2 of c. */
  lemma ScoredRun(cfg: FilterCfg, rate: real, inputs: seq<Inputs>, c: real, slack: real, score: real)
    requires forall i :: 0 <= i < |inputs| ==> ScoredSafe(cfg, inputs[i], c, slack, score)
    ensures RunLoop(cfg, Start(rate), inputs).Returned?
    ensures RunWithin(RunLoop(cfg, Start(rate), inputs).value, c - (score + slack) / 2.0, c + (score + slack) / 2.0)
  {
    hide ScoredSafe, FusesWithin, RunLoop, RunWithin;
    var lo, hi := c - (score + slack) / 2.0, c + (score + slack) / 2.0;
    forall i | 0 <= i < |inputs| ensures FusesWithin(cfg, inputs[i], lo, hi) {
      ScoredMeans(cfg, inputs[i], c, slack, score);
    }
    RunStaysWithin(cfg, rate, inputs, lo, hi);
  }
}
