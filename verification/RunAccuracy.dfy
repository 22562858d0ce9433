/** Accuracy of the fusion loop over whole runs, src/net/node.rs lines 372-471: with few
    enough corrupted sources in every iteration, everything the loop outputs stays in the band
    of the others, and the smoothed offset converges to it. */
module RunAccuracy {
  import opened Wrappers
  import opened Numeric
  import opened StableSort
  import opened RobustMedian
  import opened Fusion
  import opened Breakdown
  import opened Ewma
  import opened FusionLoop

  // ----- sources and their summaries

  function Usable(sources: seq<Source>, limit: nat): seq<Source> {
    if |sources| == 0 then []
    else
      var last := sources[|sources| - 1];
      var before := Usable(sources[..|sources| - 1], limit);
      if |last.offsets| < limit then before else before + [last]
  }

  /** The sources that take part in an iteration. */
  function Participants(cfg: FilterCfg, inputs: Inputs): seq<Source> {
    Usable(Others(inputs.peers, cfg.nodeId), Limit(cfg)) + Usable(inputs.ntp, Limit(cfg))
  }

  lemma {:induction false} UsableAre(sources: seq<Source>, limit: nat, s: Source)
    ensures s in Usable(sources, limit) <==> s in sources && |s.offsets| >= limit
  {
    if |sources| > 0 {
      UsableAre(sources[..|sources| - 1], limit, s);
      assert sources == sources[..|sources| - 1] + [sources[|sources| - 1]];
    }
  }

  lemma {:induction false} OthersAre(peers: seq<Source>, nodeId: nat, s: Source)
    ensures s in Others(peers, nodeId) <==> s in peers && s.id != nodeId
  {
    if |peers| > 0 {
      OthersAre(peers[..|peers| - 1], nodeId, s);
      assert peers == peers[..|peers| - 1] + [peers[|peers| - 1]];
    }
  }

  /** A source takes part when it has enough recent offsets; a peer with the node's own id
      never does, an NTP source with that id does. */
  lemma ParticipantsAre(cfg: FilterCfg, inputs: Inputs, s: Source)
    ensures s in Participants(cfg, inputs) <==>
            && (s in inputs.ntp || (s in inputs.peers && s.id != cfg.nodeId))
            && |s.offsets| >= 1 && |s.offsets| >= cfg.minSamples
  {
    hide Usable, Others;
    OthersAre(inputs.peers, cfg.nodeId, s);
    UsableAre(Others(inputs.peers, cfg.nodeId), Limit(cfg), s);
    UsableAre(inputs.ntp, Limit(cfg), s);
  }

  /** What matters of a summary: a positive weight and the medians of offsets and delays. */
  ghost predicate Summarises(x: PeerSample, s: Source) {
    && x.peerWeight >= 0.01 && |s.offsets| > 0
    && x.offsetMedian == MedianOrZero(Values(s.offsets)) && x.delayMedian == MedianOrZero(Values(s.delays))
  }

  lemma {:induction false} GatherSummarises(sources: seq<Source>, limit: nat, defaultWeight: real)
    requires limit > 0
    ensures |Gather(sources, limit, defaultWeight)| == |Usable(sources, limit)|
    ensures forall i :: 0 <= i < |Usable(sources, limit)| ==>
              Summarises(Gather(sources, limit, defaultWeight)[i], Usable(sources, limit)[i])
  {
    hide MedianOrZero, Values;
    if |sources| > 0 {
      GatherSummarises(sources[..|sources| - 1], limit, defaultWeight);
    }
  }

  lemma GatheredSummarises(cfg: FilterCfg, inputs: Inputs)
    ensures |Gathered(cfg, inputs)| == |Participants(cfg, inputs)|
    ensures forall i :: 0 <= i < |Participants(cfg, inputs)| ==>
              Summarises(Gathered(cfg, inputs)[i], Participants(cfg, inputs)[i])
  {
    hide Gather, Usable, Summarises, Others;
    GatherSummarises(Others(inputs.peers, cfg.nodeId), Limit(cfg), PEER_DEFAULT_WEIGHT);
    GatherSummarises(inputs.ntp, Limit(cfg), NTP_DEFAULT_WEIGHT);
  }

  function Beyond(lo: real, hi: real): real -> bool {
    (v: real) => !(lo <= v <= hi)
  }

  function BeyondSample(lo: real, hi: real): PeerSample -> bool {
    (x: PeerSample) => !(lo <= x.offsetMedian <= hi)
  }

  /** At least half of the source's offsets lie outside the band; fewer cannot move its median out. */
  function Corrupted(lo: real, hi: real): Source -> bool {
    (s: Source) => 2 * Count(Beyond(lo, hi), Values(s.offsets)) >= |s.offsets|
  }

  lemma SummaryInBand(x: PeerSample, s: Source, lo: real, hi: real)
    requires Summarises(x, s) && !Corrupted(lo, hi)(s)
    ensures lo <= x.offsetMedian <= hi
  {
    hide Values, Sorted, Count;
    MedianInBand(Values(s.offsets), Beyond(lo, hi), lo, hi);
  }

  // ----- one iteration

  /** The corrupted participants are few enough for selection and trimming to absorb. */
  ghost predicate Safe(cfg: FilterCfg, inputs: Inputs, lo: real, hi: real) {
    var sources := Participants(cfg, inputs);
    |sources| > 0 ==>
      var k := KeepCount(|sources|, cfg.bestQuantile);
      Tolerated(k, TrimCount(k, cfg.trimRatio), Count(Corrupted(lo, hi), sources))
  }

  /** Whatever is fused has its mean in the band. */
  ghost predicate FusesWithin(cfg: FilterCfg, inputs: Inputs, lo: real, hi: real) {
    |Gathered(cfg, inputs)| > 0 ==>
      var r := Fuse(Gathered(cfg, inputs), cfg.bestQuantile, cfg.trimRatio);
      r.Returned? && lo <= r.value.meanOffset <= hi
  }

  lemma SafeMeans(cfg: FilterCfg, inputs: Inputs, lo: real, hi: real)
    requires Safe(cfg, inputs, lo, hi)
    ensures FusesWithin(cfg, inputs, lo, hi)
  {
    hide Gathered, Participants, Summarises, Fuse, Count, TrimCount, KeepCount, Corrupted;
    var samples, sources := Gathered(cfg, inputs), Participants(cfg, inputs);
    var outside := BeyondSample(lo, hi);
    GatheredSummarises(cfg, inputs);
    if |samples| > 0 {
      forall i | 0 <= i < |samples| && outside(samples[i]) ensures Corrupted(lo, hi)(sources[i]) {
        if !Corrupted(lo, hi)(sources[i]) {
          SummaryInBand(samples[i], sources[i], lo, hi);
        }
      }
      CountPointwise(outside, Corrupted(lo, hi), samples, sources);
      SummariesWeigh(samples, sources);
      FusedMeanInBand(samples, cfg.bestQuantile, cfg.trimRatio, outside, lo, hi, Count(Corrupted(lo, hi), sources));
    }
  }

  lemma SummariesWeigh(samples: seq<PeerSample>, sources: seq<Source>)
    requires |samples| == |sources| && forall i :: 0 <= i < |samples| ==> Summarises(samples[i], sources[i])
    ensures NonNegativeWeights(samples)
  {
  }

  ghost predicate InBand(output: Output, lo: real, hi: real) {
    output.Fused? ==> lo <= output.stats.meanOffset <= hi && lo <= output.smoothed <= hi
  }

  ghost predicate Settles(e: EwmaState, lo: real, hi: real) {
    e.init ==> lo <= e.state <= hi
  }

  lemma IterationInBand(cfg: FilterCfg, st: LoopState, inputs: Inputs, lo: real, hi: real)
    requires FusesWithin(cfg, inputs, lo, hi) && Settles(st.ewma, lo, hi)
    ensures Tick(cfg, st, inputs).Returned?
    ensures var it := Tick(cfg, st, inputs).value; InBand(it.output, lo, hi) && Settles(it.state.ewma, lo, hi)
  {
    hide Gathered, Fuse, Smooth;
    if |Gathered(cfg, inputs)| > 0 {
      var stats := Fuse(Gathered(cfg, inputs), cfg.bestQuantile, cfg.trimRatio).value;
      PushInHull(st.ewma, stats.meanOffset, stats.totalWeight, lo, hi);
    }
  }

  // ----- which iterations fuse

  lemma TickFuses(cfg: FilterCfg, st: LoopState, inputs: Inputs, it: Iteration)
    requires Tick(cfg, st, inputs) == Returned(it)
    ensures it.output.Fused? <==> |inputs.peers| > 0 && |Participants(cfg, inputs)| > 0
  {
    hide Gathered, Participants, Fuse, Smooth, DriftOf, LastOnes, Summarises;
    GatheredSummarises(cfg, inputs);
  }

  /** In every run without a panic, an iteration fuses if and only if some peer is configured
      and some source, of either kind, takes part. */
  lemma {:induction false} FusedExactlyWhen(cfg: FilterCfg, st: LoopState, inputs: seq<Inputs>, run: Run, i: nat)
    requires RunLoop(cfg, st, inputs) == Returned(run) && i < |inputs|
    ensures |run.outputs| == |inputs|
    ensures run.outputs[i].Fused? <==> |inputs[i].peers| > 0 && |Participants(cfg, inputs[i])| > 0
  {
    hide Tick, Participants;
    var init := inputs[..|inputs| - 1];
    var before := RunLoop(cfg, st, init).value;
    RunLength(cfg, st, inputs, run);
    RunLength(cfg, st, init, before);
    if i < |init| {
      FusedExactlyWhen(cfg, st, init, before, i);
    } else {
      TickFuses(cfg, before.state, inputs[i], Tick(cfg, before.state, inputs[i]).value);
    }
  }

  /** The failing configuration: a usable NTP source alone is never fused; the same source is
      as soon as some peer is configured, even one that never answers. */
  lemma NtpOnlyIsSkipped(cfg: FilterCfg, st: LoopState, src: Source, peer: Source, ts: nat)
    requires |src.offsets| >= Limit(cfg) && |peer.offsets| == 0 && cfg.trimRatio < 1.0
    ensures src in Participants(cfg, Inputs([], [src], ts))
    ensures Tick(cfg, st, Inputs([], [src], ts)) == Returned(Iteration(st, Skipped))
    ensures Tick(cfg, st, Inputs([peer], [src], ts)).Returned?
    ensures Tick(cfg, st, Inputs([peer], [src], ts)).value.output.Fused?
  {
    var alone, together := Inputs([], [src], ts), Inputs([peer], [src], ts);
    hide Participants, Gathered, Tick, RunLoop;
    assert src in alone.ntp && src in together.ntp;
    ParticipantsAre(cfg, alone, src);
    ParticipantsAre(cfg, together, src);
    TickReturns(cfg, st, together);
    TickFuses(cfg, st, together, Tick(cfg, st, together).value);
    TickAlone(cfg, st, alone);
  }

  lemma TickAlone(cfg: FilterCfg, st: LoopState, inputs: Inputs)
    requires |inputs.peers| == 0
    ensures Tick(cfg, st, inputs) == Returned(Iteration(st, Skipped))
  {
  }

  lemma TickReturns(cfg: FilterCfg, st: LoopState, inputs: Inputs)
    requires cfg.trimRatio < 1.0
    ensures Tick(cfg, st, inputs).Returned?
  {
    hide Gathered, KeptOf, StatsOf, Absorb, SelectBestPeers;
    var samples := Gathered(cfg, inputs);
    if |samples| > 0 {
      KeepCountBounds(|samples|, cfg.bestQuantile);
      TrimmingOutcome(SelectBestPeers(samples, cfg.bestQuantile), cfg.trimRatio);
    }
  }

  // ----- whole runs

  /** The smoother and everything a run puts out lie in the band. */
  ghost predicate RunWithin(run: Run, lo: real, hi: real) {
    Settles(run.state.ewma, lo, hi) && forall i :: 0 <= i < |run.outputs| ==> InBand(run.outputs[i], lo, hi)
  }

  /** Safety over every run: while every iteration is safe, no iteration panics and every
      fused mean and every smoothed offset lies in the band. */
  lemma RunInBand(cfg: FilterCfg, rate: real, inputs: seq<Inputs>, lo: real, hi: real)
    requires forall i :: 0 <= i < |inputs| ==> Safe(cfg, inputs[i], lo, hi)
    ensures RunLoop(cfg, Start(rate), inputs).Returned?
    ensures RunWithin(RunLoop(cfg, Start(rate), inputs).value, lo, hi)
  {
    hide Safe, FusesWithin, RunLoop, RunWithin;
    forall i | 0 <= i < |inputs| ensures FusesWithin(cfg, inputs[i], lo, hi) {
      SafeMeans(cfg, inputs[i], lo, hi);
    }
    RunStaysWithin(cfg, rate, inputs, lo, hi);
  }

  lemma {:induction false} RunStaysWithin(cfg: FilterCfg, rate: real, inputs: seq<Inputs>, lo: real, hi: real)
    requires forall i :: 0 <= i < |inputs| ==> FusesWithin(cfg, inputs[i], lo, hi)
    ensures RunLoop(cfg, Start(rate), inputs).Returned?
    ensures RunWithin(RunLoop(cfg, Start(rate), inputs).value, lo, hi)
  {
    hide Tick, FusesWithin, InBand;
    if |inputs| > 0 {
      var before := inputs[..|inputs| - 1];
      RunStaysWithin(cfg, rate, before, lo, hi);
      hide Settles;
      IterationInBand(cfg, RunLoop(cfg, Start(rate), before).value.state, inputs[|inputs| - 1], lo, hi);
    }
  }

  /** What a run pushed through the smoother. */
  function Smoothed(outputs: seq<Output>): seq<Sample> {
    if |outputs| == 0 then []
    else
      var last := outputs[|outputs| - 1];
      var before := Smoothed(outputs[..|outputs| - 1]);
      if last.Fused? then before + [Sample(last.stats.meanOffset, last.stats.totalWeight)] else before
  }

  ghost predicate WeighedWithin(p: Sample, c: real, e: real) {
    Abs(p.value - c) <= e && p.weight >= 0.0
  }

  lemma FusedWeighs(samples: seq<PeerSample>, quantile: real, trimRatio: real)
    requires Fuse(samples, quantile, trimRatio).Returned?
    ensures Fuse(samples, quantile, trimRatio).value.totalWeight > 0.0
  {
    hide KeptOf, SelectBestPeers, Sum;
  }

  lemma IterationPushes(cfg: FilterCfg, st: LoopState, inputs: Inputs, c: real, e: real)
    requires FusesWithin(cfg, inputs, c - e, c + e)
    ensures Tick(cfg, st, inputs).Returned?
    ensures var it := Tick(cfg, st, inputs).value;
            match it.output
            case Skipped => it.state == st
            case Fused(stats, _, _) =>
              && it.state.ewma == Smooth(st.ewma, stats.meanOffset, stats.totalWeight)
              && WeighedWithin(Sample(stats.meanOffset, stats.totalWeight), c, e)
  {
    hide Gathered, Fuse, Smooth;
    if |Gathered(cfg, inputs)| > 0 {
      FusedWeighs(Gathered(cfg, inputs), cfg.bestQuantile, cfg.trimRatio);
    }
  }

  /** The smoother's state is what pushing all of `pushes`, each within e of c, leaves. */
  ghost predicate PushedWithin(before: EwmaState, after: EwmaState, pushes: seq<Sample>, c: real, e: real) {
    && after == PushAll(before, pushes)
    && forall i :: 0 <= i < |pushes| ==> WeighedWithin(pushes[i], c, e)
  }

  lemma PushedMore(s: EwmaState, s': EwmaState, outputs: seq<Output>, output: Output, c: real, e: real)
    requires PushedWithin(s, s', Smoothed(outputs), c, e)
    requires output.Fused? ==> WeighedWithin(Sample(output.stats.meanOffset, output.stats.totalWeight), c, e)
    ensures var s'' := if output.Fused? then Smooth(s', output.stats.meanOffset, output.stats.totalWeight) else s';
            PushedWithin(s, s'', Smoothed(outputs + [output]), c, e)
  {
    hide Smooth, WeighedWithin;
    assert (outputs + [output])[..|outputs|] == outputs;
    var pushes := Smoothed(outputs);
    if output.Fused? {
      var p := Sample(output.stats.meanOffset, output.stats.totalWeight);
      assert (pushes + [p])[..|pushes|] == pushes;
    }
  }

  lemma {:induction false} RunIsPushes(cfg: FilterCfg, st: LoopState, inputs: seq<Inputs>, c: real, e: real)
    requires forall i :: 0 <= i < |inputs| ==> FusesWithin(cfg, inputs[i], c - e, c + e)
    ensures RunLoop(cfg, st, inputs).Returned?
    ensures var run := RunLoop(cfg, st, inputs).value;
            PushedWithin(st.ewma, run.state.ewma, Smoothed(run.outputs), c, e)
  {
    hide Tick, FusesWithin, WeighedWithin, Smooth;
    if |inputs| > 0 {
      hide PushedWithin, Smoothed;
      var last := inputs[|inputs| - 1];
      RunIsPushes(cfg, st, inputs[..|inputs| - 1], c, e);
      var before := RunLoop(cfg, st, inputs[..|inputs| - 1]).value;
      IterationPushes(cfg, before.state, last, c, e);
      PushedMore(st.ewma, before.state.ewma, before.outputs, Tick(cfg, before.state, last).value.output, c, e);
    }
  }

  /** Convergence over runs: from any state the loop may be in, once every iteration is safe
      for the band around c, the smoothed error after j further fusions is at most e plus
      (1 - lambda)^j times the error before. */
  lemma RunConverges(cfg: FilterCfg, st: LoopState, inputs: seq<Inputs>, c: real, e: real)
    requires st.ewma.init && 0.0 <= st.ewma.rate <= 1.0 && e >= 0.0
    requires forall i :: 0 <= i < |inputs| ==> Safe(cfg, inputs[i], c - e, c + e)
    ensures RunLoop(cfg, st, inputs).Returned?
    ensures var run := RunLoop(cfg, st, inputs).value;
            ErrorWithin(run.state.ewma, c,
                        e + Decay(Abs(st.ewma.state - c), 1.0 - st.ewma.rate, |Smoothed(run.outputs)|))
  {
    hide Safe, FusesWithin, RunLoop, Smoothed, PushAll, Decay;
    forall i | 0 <= i < |inputs| ensures FusesWithin(cfg, inputs[i], c - e, c + e) {
      SafeMeans(cfg, inputs[i], c - e, c + e);
    }
    RunIsPushes(cfg, st, inputs, c, e);
    var pushes := Smoothed(RunLoop(cfg, st, inputs).value.outputs);
    forall i | 0 <= i < |pushes| ensures Abs(pushes[i].value - c) <= e && pushes[i].weight >= 0.0 {
      assert WeighedWithin(pushes[i], c, e);
    }
    ErrorDecays(st.ewma, pushes, c, e);
  }
}
