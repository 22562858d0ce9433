/** Every single output of every run of the fusion loop, src/net/node.rs lines 372-469: what was
    fused, how it was smoothed, and when a drift is reported and over which points. */
module RunOutputs {
  import opened Wrappers
  import opened Numeric
  import opened Fusion
  import opened Breakdown
  import opened Ewma
  import opened Drift
  import opened FusionLoop

  /** The run up to any point is the run on the inputs up to there. */
  lemma {:induction false} RunPrefix(cfg: FilterCfg, st: LoopState, inputs: seq<Inputs>, run: Run, n: nat)
    returns (part: Run)
    requires RunLoop(cfg, st, inputs) == Returned(run) && n <= |inputs|
    ensures |run.outputs| == |inputs|
    ensures RunLoop(cfg, st, inputs[..n]) == Returned(part) && part.outputs == run.outputs[..n]
  {
    hide Tick;
    RunLength(cfg, st, inputs, run);
    if n == |inputs| {
      assert inputs[..n] == inputs;
      part := run;
    } else {
      var init := inputs[..|inputs| - 1];
      var before := RunLoop(cfg, st, init).value;
      part := RunPrefix(cfg, st, init, before, n);
      assert init[..n] == inputs[..n];
    }
  }

  /** The state in which output i was produced, and the one it left. */
  lemma AroundOutput(cfg: FilterCfg, st: LoopState, inputs: seq<Inputs>, run: Run, i: nat)
    returns (before: Run, after: Run)
    requires RunLoop(cfg, st, inputs) == Returned(run) && i < |inputs|
    ensures |run.outputs| == |inputs|
    ensures RunLoop(cfg, st, inputs[..i]) == Returned(before) && before.outputs == run.outputs[..i]
    ensures RunLoop(cfg, st, inputs[..i + 1]) == Returned(after) && after.outputs == run.outputs[..i + 1]
    ensures Tick(cfg, before.state, inputs[i]) == Returned(Iteration(after.state, run.outputs[i]))
  {
    hide Tick;
    after := RunPrefix(cfg, st, inputs, run, i + 1);
    assert inputs[..i + 1][..i] == inputs[..i];
    before := RunPrefix(cfg, st, inputs[..i + 1], after, i);
    assert after.outputs == before.outputs + [after.outputs[i]];
  }

  // ----- when a drift is reported

  lemma {:induction false} PushPositions(inputs: seq<Inputs>, outputs: seq<Output>) returns (at: seq<nat>)
    requires |inputs| == |outputs|
    ensures |at| == |Pushes(inputs, outputs)|
    ensures forall j, k :: 0 <= j < k < |at| ==> at[j] < at[k]
    ensures forall j: nat :: j in at <==> j < |outputs| && outputs[j].Fused?
    ensures forall k :: 0 <= k < |at| ==>
              at[k] < |outputs| && outputs[at[k]].Fused?
              && Pushes(inputs, outputs)[k] == Point(inputs[at[k]].ts, ToI64(outputs[at[k]].smoothed))
  {
    hide ToI64;
    if |inputs| == 0 {
      at := [];
    } else {
      var i := |inputs| - 1;
      at := PushPositions(inputs[..i], outputs[..i]);
      assert forall k :: 0 <= k < |at| ==> at[k] in at;
      if outputs[i].Fused? {
        at := at + [i];
      }
    }
  }

  lemma LastPoints(all: seq<Point>, at: seq<nat>, ring: seq<Point>, inputs: seq<Inputs>, outputs: seq<Output>)
    requires |all| == |at| && ring == LastOnes(all, 512) && |inputs| == |outputs|
    requires forall k :: 0 <= k < |at| ==>
               at[k] < |outputs| && outputs[at[k]].Fused?
               && all[k] == Point(inputs[at[k]].ts, ToI64(outputs[at[k]].smoothed))
    ensures |ring| == if |at| < 512 then |at| else 512
    ensures forall k :: 0 <= k < |ring| ==>
              var j := at[|at| - |ring| + k];
              j < |outputs| && outputs[j].Fused? && ring[k] == Point(inputs[j].ts, ToI64(outputs[j].smoothed))
  {
    hide ToI64;
  }

  /** Three points or more give a thousand times their slope. */
  lemma DriftOfPoints(ring: seq<Point>)
    ensures DriftOf(ring) == if |ring| >= 3 then Some(1000.0 * Slope(ring)) else None
  {
    hide Slope;
  }

  /** For every output of every run: let `at` be the fused outputs up to it.  A drift is reported
      if and only if there are at least three, and it is a thousand times the slope through the
      last 512 of them, or all while they are fewer, each with its time and its smoothed offset. */
  lemma DriftReported(cfg: FilterCfg, rate: real, inputs: seq<Inputs>, run: Run, i: nat)
    returns (at: seq<nat>, ring: seq<Point>)
    requires RunLoop(cfg, Start(rate), inputs) == Returned(run) && i < |inputs|
    ensures |run.outputs| == |inputs|
    ensures forall j, k :: 0 <= j < k < |at| ==> at[j] < at[k]
    ensures forall j: nat :: j in at <==> j <= i && run.outputs[j].Fused?
    ensures |ring| == if |at| < 512 then |at| else 512
    ensures forall k :: 0 <= k < |ring| ==>
              var j := at[|at| - |ring| + k];
              j <= i && run.outputs[j].Fused? && ring[k] == Point(inputs[j].ts, ToI64(run.outputs[j].smoothed))
    ensures run.outputs[i].Fused? ==>
              run.outputs[i].driftPpm == if |at| >= 3 then Some(1000.0 * Slope(ring)) else None
  {
    hide RunLoop, Pushes, Slope, ToI64, LastOnes, DriftOf;
    var part := RunPrefix(cfg, Start(rate), inputs, run, i + 1);
    RingIsLastPushes(cfg, rate, inputs[..i + 1], part);
    at := PushPositions(inputs[..i + 1], part.outputs);
    ring := part.state.ring;
    LastPoints(Pushes(inputs[..i + 1], part.outputs), at, ring, inputs[..i + 1], part.outputs);
    DriftOfPoints(ring);
    assert part.outputs[i] == run.outputs[i];
  }

  // ----- what was fused

  /** What one tick does, with the fusion and the smoothing taken as units. */
  lemma TickDoes(cfg: FilterCfg, st: LoopState, inputs: Inputs, it: Iteration)
    requires Tick(cfg, st, inputs) == Returned(it)
    ensures it.output.Fused? <==> |inputs.peers| > 0 && |Gathered(cfg, inputs)| > 0
    ensures it.output.Skipped? ==> it.state == st
    ensures it.output.Fused? ==>
              && Returned(it.output.stats) == Fuse(Gathered(cfg, inputs), cfg.bestQuantile, cfg.trimRatio)
              && it.state.ewma == Smooth(st.ewma, it.output.stats.meanOffset, it.output.stats.totalWeight)
              && it.output.smoothed == it.state.ewma.state
  {
    hide Gathered, Fuse, Smooth, LastOnes, DriftOf;
  }

  /** A tick with a peer and a gathered sample outputs the fusion of what it gathered; any other
      tick outputs nothing. */
  lemma OutputIsFusion(cfg: FilterCfg, st: LoopState, inputs: seq<Inputs>, run: Run, i: nat)
    requires RunLoop(cfg, st, inputs) == Returned(run) && i < |inputs|
    ensures |run.outputs| == |inputs|
    ensures run.outputs[i].Fused? <==> |inputs[i].peers| > 0 && |Gathered(cfg, inputs[i])| > 0
    ensures run.outputs[i].Fused? ==>
              Returned(run.outputs[i].stats) == Fuse(Gathered(cfg, inputs[i]), cfg.bestQuantile, cfg.trimRatio)
  {
    var before, after := AroundOutput(cfg, st, inputs, run, i);
    hide Gathered, Fuse, Tick, RunLoop;
    TickDoes(cfg, before.state, inputs[i], Iteration(after.state, run.outputs[i]));
  }

  // ----- how it was smoothed

  ghost predicate NoneFused(outputs: seq<Output>) {
    forall j :: 0 <= j < |outputs| ==> outputs[j].Skipped?
  }

  /** Output j is the last that is not skipped. */
  ghost predicate LastFused(outputs: seq<Output>, j: nat) {
    j < |outputs| && outputs[j].Fused? && forall k :: j < k < |outputs| ==> outputs[k].Skipped?
  }

  /** The smoother remembers the last fused output and nothing else. */
  ghost predicate Remembers(e: EwmaState, start: EwmaState, outputs: seq<Output>) {
    && e.rate == start.rate
    && (NoneFused(outputs) ==> e == start)
    && forall j: nat :: LastFused(outputs, j) ==> e.init && e.state == outputs[j].smoothed
  }

  lemma RemembersNext(e: EwmaState, e': EwmaState, start: EwmaState, outputs: seq<Output>, out: Output)
    requires Remembers(e, start, outputs)
    requires out.Skipped? ==> e' == e
    requires out.Fused? ==> e'.rate == e.rate && e'.init && e'.state == out.smoothed
    ensures Remembers(e', start, outputs + [out])
  {
    var all := outputs + [out];
    assert all[|outputs|] == out;
    if NoneFused(all) {
      forall j | 0 <= j < |outputs| ensures outputs[j].Skipped? { assert all[j] == outputs[j]; }
    }
    forall j: nat | LastFused(all, j) ensures e'.init && e'.state == all[j].smoothed {
      if j < |outputs| {
        assert all[|outputs|].Skipped?;
        assert LastFused(outputs, j) by {
          assert forall k :: j < k < |outputs| ==> all[k] == outputs[k];
        }
      }
    }
  }

  lemma {:induction false} RunRemembers(cfg: FilterCfg, st: LoopState, inputs: seq<Inputs>, run: Run)
    requires RunLoop(cfg, st, inputs) == Returned(run)
    ensures |run.outputs| == |inputs| && Remembers(run.state.ewma, st.ewma, run.outputs)
  {
    hide Tick, Remembers;
    RunLength(cfg, st, inputs, run);
    if |inputs| == 0 {
      RemembersNothing(st.ewma);
    } else {
      var n := |inputs| - 1;
      var before := RunLoop(cfg, st, inputs[..n]).value;
      RunRemembers(cfg, st, inputs[..n], before);
      var it := Tick(cfg, before.state, inputs[n]).value;
      TickDoes(cfg, before.state, inputs[n], it);
      RemembersNext(before.state.ewma, it.state.ewma, st.ewma, before.outputs, it.output);
    }
  }

  lemma RemembersNothing(e: EwmaState)
    ensures Remembers(e, e, [])
  {
  }

  lemma PushMoves(e: EwmaState, value: real, weight: real)
    requires 0.0 <= e.rate <= 1.0 && weight >= 0.0
    ensures !e.init ==> Smooth(e, value, weight).state == value
    ensures e.init ==> Moves(Smooth(e, value, weight).state, e.state, value, e.rate, weight)
  {
    ProductNonNegative(e.rate, 4.0 + weight);
    AlphaLaw(e.rate, weight);
    hide Alpha;
    BlendMoves(Alpha(e.rate, weight), value, e.state);
  }

  lemma TotalWeightPositive(samples: seq<PeerSample>, quantile: real, trimRatio: real)
    ensures Fuse(samples, quantile, trimRatio).Returned? ==>
              Fuse(samples, quantile, trimRatio).value.totalWeight > 0.0
  {
    hide SelectBestPeers, KeptOf, MeanOf, Sum, Weight;
  }

  /** For every fused output of every run: the first is the fused mean itself; any other lies,
      from the smoothed offset before it, however many ticks were skipped between, the fraction
      lambda (1 + total weight / 4), at most all, of the way to the fused mean; lambda is the
      configured rate, or the nearer of 0 and 1. */
  lemma SmoothedMoves(cfg: FilterCfg, rate: real, inputs: seq<Inputs>, run: Run, i: nat)
    requires RunLoop(cfg, Start(rate), inputs) == Returned(run) && i < |inputs|
    ensures |run.outputs| == |inputs|
    ensures run.outputs[i].Fused? && NoneFused(run.outputs[..i]) ==>
              run.outputs[i].smoothed == run.outputs[i].stats.meanOffset
    ensures forall j: nat :: run.outputs[i].Fused? && LastFused(run.outputs[..i], j) ==>
              Moves(run.outputs[i].smoothed, run.outputs[j].smoothed, run.outputs[i].stats.meanOffset,
                    if rate < 0.0 then 0.0 else if rate > 1.0 then 1.0 else rate, run.outputs[i].stats.totalWeight)
  {
    hide Tick, Smooth, Moves, RunLoop, Fuse;
    var before, after := AroundOutput(cfg, Start(rate), inputs, run, i);
    RunRemembers(cfg, Start(rate), inputs[..i], before);
    TickDoes(cfg, before.state, inputs[i], Iteration(after.state, run.outputs[i]));
    if run.outputs[i].Fused? {
      var stats := run.outputs[i].stats;
      TotalWeightPositive(Gathered(cfg, inputs[i]), cfg.bestQuantile, cfg.trimRatio);
      PushMoves(before.state.ewma, stats.meanOffset, stats.totalWeight);
    }
  }
}
