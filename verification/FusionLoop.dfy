/** The fusion loop of src/net/node.rs, lines 372-471: gathering the stored series of every
    source, fusing them, smoothing, and keeping the ring that drift is estimated from. */
module FusionLoop {
  import opened Wrappers
  import opened Numeric
  import opened StableSort
  import opened RobustMedian
  import opened Fusion
  import opened Breakdown
  import opened Ewma
  import opened Drift

  const RING_CAPACITY: nat := 512
  const DRIFT_MIN: nat := 3
  const PEER_DEFAULT_WEIGHT := 1.0
  const NTP_DEFAULT_WEIGHT := 0.2

  type Series = seq<(nat, real)>

  /** A configured source with what the store returned for it. */
  datatype Source = Source(id: nat, weight: Option<real>, offsets: Series, delays: Series, jitters: Series)

  datatype FilterCfg = FilterCfg(nodeId: nat, minSamples: nat, bestQuantile: real, trimRatio: real)

  /** What one iteration reads: the peers, the NTP sources, and the time of the clock. */
  datatype Inputs = Inputs(peers: seq<Source>, ntp: seq<Source>, ts: nat)

  // ----- gathering

  function SecondOf(entry: (nat, real)): real { entry.1 }

  function Values(series: Series): (r: seq<real>)
    ensures |r| == |series|
    ensures forall i :: 0 <= i < |series| ==> r[i] == series[i].1
  {
    Map(SecondOf, series)
  }

  function Limit(cfg: FilterCfg): nat {
    if cfg.minSamples < 1 then 1 else cfg.minSamples
  }

  function Summary(s: Source, defaultWeight: real): PeerSample {
    FromSeries(s.id, s.weight.GetOr(defaultWeight), Values(s.offsets), Values(s.delays), Values(s.jitters))
  }

  /** Sources with fewer offsets than the limit contribute nothing. */
  function Gather(sources: seq<Source>, limit: nat, defaultWeight: real): seq<PeerSample> {
    if |sources| == 0 then []
    else
      var last := sources[|sources| - 1];
      var before := Gather(sources[..|sources| - 1], limit, defaultWeight);
      if |last.offsets| < limit then before else before + [Summary(last, defaultWeight)]
  }

  function Others(peers: seq<Source>, nodeId: nat): seq<Source> {
    if |peers| == 0 then []
    else
      var last := peers[|peers| - 1];
      var before := Others(peers[..|peers| - 1], nodeId);
      if last.id == nodeId then before else before + [last]
  }

  function Gathered(cfg: FilterCfg, inputs: Inputs): seq<PeerSample> {
    Gather(Others(inputs.peers, cfg.nodeId), Limit(cfg), PEER_DEFAULT_WEIGHT)
    + Gather(inputs.ntp, Limit(cfg), NTP_DEFAULT_WEIGHT)
  }

  lemma GatherStep(sources: seq<Source>, x: Source, limit: nat, defaultWeight: real)
    ensures Gather(sources + [x], limit, defaultWeight) ==
            var before := Gather(sources, limit, defaultWeight);
            if |x.offsets| < limit then before else before + [Summary(x, defaultWeight)]
  {
  }

  lemma OthersStep(peers: seq<Source>, x: Source, nodeId: nat)
    ensures Others(peers + [x], nodeId) ==
            if x.id == nodeId then Others(peers, nodeId) else Others(peers, nodeId) + [x]
  {
  }

  lemma GatherNone(limit: nat, defaultWeight: real)
    ensures Gather([], limit, defaultWeight) == []
  {
  }

  lemma OthersNone(nodeId: nat)
    ensures Others([], nodeId) == []
  {
  }

  method GatherSamples(cfg: FilterCfg, inputs: Inputs) returns (samples: seq<PeerSample>)
    ensures samples == Gathered(cfg, inputs)
  {
    hide Summary, Gather, Others;
    OthersNone(cfg.nodeId);
    GatherNone(Limit(cfg), PEER_DEFAULT_WEIGHT);
    GatherNone(Limit(cfg), NTP_DEFAULT_WEIGHT);
    var limit := Limit(cfg);
    samples := [];
    for i := 0 to |inputs.peers|
      invariant samples == Gather(Others(inputs.peers[..i], cfg.nodeId), limit, PEER_DEFAULT_WEIGHT)
    {
      var peer := inputs.peers[i];
      OthersStep(inputs.peers[..i], peer, cfg.nodeId);
      GatherStep(Others(inputs.peers[..i], cfg.nodeId), peer, limit, PEER_DEFAULT_WEIGHT);
      assert inputs.peers[..i] + [peer] == inputs.peers[..i + 1];
      if peer.id != cfg.nodeId && |peer.offsets| >= limit {
        samples := samples + [Summary(peer, PEER_DEFAULT_WEIGHT)];
      }
    }
    assert inputs.peers[..|inputs.peers|] == inputs.peers;
    ghost var fromPeers := samples;
    for i := 0 to |inputs.ntp|
      invariant samples == fromPeers + Gather(inputs.ntp[..i], limit, NTP_DEFAULT_WEIGHT)
    {
      var ntp := inputs.ntp[i];
      GatherStep(inputs.ntp[..i], ntp, limit, NTP_DEFAULT_WEIGHT);
      assert inputs.ntp[..i] + [ntp] == inputs.ntp[..i + 1];
      if |ntp.offsets| >= limit {
        samples := samples + [Summary(ntp, NTP_DEFAULT_WEIGHT)];
      }
    }
    assert inputs.ntp[..|inputs.ntp|] == inputs.ntp;
  }

  // ----- what is gathered

  /** The summary of a source, field by field. */
  ghost predicate Sums(x: PeerSample, s: Source, defaultWeight: real) {
    && x.peerId == s.id
    && x.peerWeight == (var w := if s.weight.Some? then s.weight.value else defaultWeight; if w < 0.01 then 0.01 else w)
    && Median(Values(s.offsets)) == Some(x.offsetMedian)
    && (if |s.delays| == 0 then x.delayMedian == 0.0 else Median(Values(s.delays)) == Some(x.delayMedian))
    && (if |s.jitters| == 0 then x.jitterMedian == 0.0
        else
          var m := Median(Values(s.jitters)).value;
          x.jitterMedian >= 0.0 && (x.jitterMedian == m || x.jitterMedian == -m))
  }

  function Enough(cfg: FilterCfg): Source -> bool {
    (s: Source) => |s.offsets| >= 1 && |s.offsets| >= cfg.minSamples
  }

  function EnoughFromOther(cfg: FilterCfg): Source -> bool {
    (s: Source) => |s.offsets| >= 1 && |s.offsets| >= cfg.minSamples && s.id != cfg.nodeId
  }

  /** The samples sum up the sources that take part, those at positions `at`, in their order. */
  ghost predicate Picks(samples: seq<PeerSample>, sources: seq<Source>, takes: Source -> bool, defaultWeight: real,
      at: seq<nat>) {
    && |samples| == |at|
    && (forall i, j :: 0 <= i < j < |at| ==> at[i] < at[j])
    && (forall p: nat :: p in at <==> p < |sources| && takes(sources[p]))
    && (forall i :: 0 <= i < |at| ==> at[i] < |sources| && Sums(samples[i], sources[at[i]], defaultWeight))
  }

  lemma PicksNone(takes: Source -> bool, defaultWeight: real)
    ensures Picks([], [], takes, defaultWeight, [])
  {
  }

  lemma PicksNext(samples: seq<PeerSample>, sources: seq<Source>, takes: Source -> bool, defaultWeight: real,
      at: seq<nat>, x: PeerSample, s: Source)
    requires Picks(samples, sources, takes, defaultWeight, at)
    requires takes(s) ==> Sums(x, s, defaultWeight)
    ensures if takes(s) then Picks(samples + [x], sources + [s], takes, defaultWeight, at + [|sources|])
            else Picks(samples, sources + [s], takes, defaultWeight, at)
  {
    hide Sums;
    var all := sources + [s];
    forall i | 0 <= i < |at| ensures at[i] < |sources| && all[at[i]] == sources[at[i]] {
      assert at[i] in at;
    }
  }

  lemma SummarySums(s: Source, defaultWeight: real)
    requires |s.offsets| >= 1
    ensures Sums(Summary(s, defaultWeight), s, defaultWeight)
  {
    hide Values, Sorted;
  }

  /** One more source, of either kind. */
  lemma GatherNext(cfg: FilterCfg, sources: seq<Source>, s: Source, weight: real)
    ensures Gather(sources + [s], Limit(cfg), weight) ==
            var before := Gather(sources, Limit(cfg), weight);
            if Enough(cfg)(s) then before + [Summary(s, weight)] else before
    ensures Gather(Others(sources + [s], cfg.nodeId), Limit(cfg), weight) ==
            var before := Gather(Others(sources, cfg.nodeId), Limit(cfg), weight);
            if EnoughFromOther(cfg)(s) then before + [Summary(s, weight)] else before
  {
    OthersStep(sources, s, cfg.nodeId);
    GatherStep(sources, s, Limit(cfg), weight);
    GatherStep(Others(sources, cfg.nodeId), s, Limit(cfg), weight);
    hide Gather, Others, Summary;
  }

  lemma {:induction false} PeersGathered(cfg: FilterCfg, peers: seq<Source>, weight: real) returns (at: seq<nat>)
    ensures Picks(Gather(Others(peers, cfg.nodeId), Limit(cfg), weight), peers, EnoughFromOther(cfg), weight, at)
  {
    hide Gather, Others, Picks, Summary, Sums, Limit, EnoughFromOther;
    if |peers| == 0 {
      at := [];
      OthersNone(cfg.nodeId);
      GatherNone(Limit(cfg), weight);
      PicksNone(EnoughFromOther(cfg), weight);
    } else {
      var before, last := peers[..|peers| - 1], peers[|peers| - 1];
      assert before + [last] == peers;
      at := PeersGathered(cfg, before, weight);
      GatherNext(cfg, before, last, weight);
      if EnoughFromOther(cfg)(last) {
        HasOffsets(cfg, last);
        SummarySums(last, weight);
      }
      PicksNext(Gather(Others(before, cfg.nodeId), Limit(cfg), weight), before, EnoughFromOther(cfg), weight, at,
                Summary(last, weight), last);
      at := if EnoughFromOther(cfg)(last) then at + [|before|] else at;
    }
  }

  lemma HasOffsets(cfg: FilterCfg, s: Source)
    ensures Enough(cfg)(s) || EnoughFromOther(cfg)(s) ==> |s.offsets| >= 1
  {
  }

  lemma {:induction false} NtpGathered(cfg: FilterCfg, ntp: seq<Source>, weight: real) returns (at: seq<nat>)
    ensures Picks(Gather(ntp, Limit(cfg), weight), ntp, Enough(cfg), weight, at)
  {
    hide Gather, Picks, Summary, Sums, Limit, Enough;
    if |ntp| == 0 {
      at := [];
      GatherNone(Limit(cfg), weight);
      PicksNone(Enough(cfg), weight);
    } else {
      var before, last := ntp[..|ntp| - 1], ntp[|ntp| - 1];
      assert before + [last] == ntp;
      at := NtpGathered(cfg, before, weight);
      GatherNext(cfg, before, last, weight);
      if Enough(cfg)(last) {
        HasOffsets(cfg, last);
        SummarySums(last, weight);
      }
      PicksNext(Gather(before, Limit(cfg), weight), before, Enough(cfg), weight, at, Summary(last, weight), last);
      at := if Enough(cfg)(last) then at + [|before|] else at;
    }
  }

  /** The gathered samples, field by field: first the summaries of the peers with enough offsets
      other than the node itself, of weight 1 unless configured, then those of the NTP sources
      with enough offsets, of weight 0.2 unless configured, each in the configured order. */
  lemma GatheredAre(cfg: FilterCfg, inputs: Inputs) returns (peersAt: seq<nat>, ntpAt: seq<nat>)
    ensures |Gathered(cfg, inputs)| == |peersAt| + |ntpAt|
    ensures Picks(Gathered(cfg, inputs)[..|peersAt|], inputs.peers, EnoughFromOther(cfg), 1.0, peersAt)
    ensures Picks(Gathered(cfg, inputs)[|peersAt|..], inputs.ntp, Enough(cfg), 0.2, ntpAt)
  {
    peersAt := PeersGathered(cfg, inputs.peers, 1.0);
    ntpAt := NtpGathered(cfg, inputs.ntp, 0.2);
    hide Gather, Others, Sums;
    var peers := Gather(Others(inputs.peers, cfg.nodeId), Limit(cfg), 1.0);
    assert Gathered(cfg, inputs)[..|peersAt|] == peers;
    assert Gathered(cfg, inputs)[|peersAt|..] == Gather(inputs.ntp, Limit(cfg), 0.2);
  }

  // ----- one iteration

  datatype LoopState = LoopState(ewma: EwmaState, ring: seq<Point>)

  datatype Output = Skipped | Fused(stats: TrimmedStats, smoothed: real, driftPpm: Option<real>)

  datatype Iteration = Iteration(state: LoopState, output: Output)

  function DriftOf(ring: seq<Point>): Option<real> {
    if |ring| >= DRIFT_MIN then Some(LinregSlope(ring)) else None
  }

  /** Smoothing one fused mean and entering it in the ring. */
  function Absorb(st: LoopState, stats: TrimmedStats, ts: nat): Iteration {
    var ewma := Smooth(st.ewma, stats.meanOffset, stats.totalWeight);
    var ring := LastOnes(st.ring + [Point(ts, ToI64(ewma.state))], RING_CAPACITY);
    Iteration(LoopState(ewma, ring), Fused(stats, ewma.state, DriftOf(ring)))
  }

  /** The ring takes the point in and keeps the last 512; from three points on a drift is
      reported, a thousand times the slope. */
  ghost predicate RingAndDrift(before: seq<Point>, ring: seq<Point>, output: Output, ts: nat) {
    && output.Fused?
    && var all := before + [Point(ts, ToI64(output.smoothed))];
    && ring == (if |all| > 512 then all[|all| - 512..] else all)
    && output.driftPpm == if |ring| >= 3 then Some(1000.0 * Slope(ring)) else None
  }

  lemma AbsorbRing(st: LoopState, stats: TrimmedStats, ts: nat)
    ensures RingAndDrift(st.ring, Absorb(st, stats, ts).state.ring, Absorb(st, stats, ts).output, ts)
  {
    hide Slope, ToI64, Smooth;
  }

  function Iterate(cfg: FilterCfg, st: LoopState, inputs: Inputs): Outcome<Iteration> {
    var samples := Gathered(cfg, inputs);
    if |samples| == 0 then Returned(Iteration(st, Skipped))
    else
      match Fuse(samples, cfg.bestQuantile, cfg.trimRatio)
      case Panicked => Panicked
      case Returned(stats) => Returned(Absorb(st, stats, inputs.ts))
  }

  /** One tick of the loop: nothing happens while no peer is configured, even if there are
      NTP sources. */
  function Tick(cfg: FilterCfg, st: LoopState, inputs: Inputs): Outcome<Iteration> {
    if |inputs.peers| == 0 then Returned(Iteration(st, Skipped)) else Iterate(cfg, st, inputs)
  }

  function Start(rate: real): LoopState {
    LoopState(EwmaState(Clamp01(rate), 0.0, false), [])
  }

  class Loop {
    const cfg: FilterCfg
    const ewma: WeightedEwma
    var ring: seq<Point>
    ghost const rate: real
    ghost var past: seq<Inputs>
    ghost var outputs: seq<Output>

    /** The loop is where the run over its past inputs ends. */
    ghost predicate Valid()
      reads this, ewma
    {
      RunLoop(cfg, Start(rate), past) == Returned(Run(View(), outputs))
    }

    function View(): LoopState
      reads this, ewma
    {
      LoopState(ewma.View(), ring)
    }

    constructor (cfg: FilterCfg, rate: real)
      ensures Valid() && this.cfg == cfg && this.rate == rate && fresh(ewma) && View() == Start(rate) && past == []
    {
      this.cfg, this.rate := cfg, rate;
      this.past, this.outputs := [], [];
      this.ring := [];
      this.ewma := new WeightedEwma(rate);
    }

    method RunFusionIteration(inputs: Inputs) returns (output: Outcome<Output>)
      modifies `ring, ewma
      ensures match Iterate(cfg, old(View()), inputs)
              case Panicked => output.Panicked? && View() == old(View())
              case Returned(it) => View() == it.state && output == Returned(it.output)
      ensures output.Returned? && output.value.Fused? ==> RingAndDrift(old(ring), ring, output.value, inputs.ts)
    {
      hide Gathered, TrimmedStatsOf, SelectBestPeers, Smooth, LinregSlope, Slope, ToI64, Moves, Restores, RingAndDrift;
      var samples := GatherSamples(cfg, inputs);
      if |samples| == 0 {
        return Returned(Skipped);
      }
      var best := SelectBestPeers(samples, cfg.bestQuantile);
      var trimmed := FromSamples(best, cfg.trimRatio);
      if trimmed.Panicked? {
        return Panicked;
      }
      var fused := trimmed.value;
      var smoothed := ewma.Push(fused.meanOffset, fused.totalWeight);
      ring := ring + [Point(inputs.ts, ToI64(smoothed))];
      if |ring| > RING_CAPACITY {
        ring := ring[|ring| - RING_CAPACITY..];
      }
      var drift := None;
      if |ring| >= DRIFT_MIN {
        var ppm := LinregSlopePpm(ring);
        drift := Some(ppm);
      }
      output := Returned(Fused(fused, smoothed, drift));
      AbsorbRing(old(View()), fused, inputs.ts);
    }

    /** Every tick extends the run by its inputs and its output; a panic ends it. */
    method OnTick(inputs: Inputs) returns (output: Outcome<Output>)
      requires Valid()
      modifies this, ewma
      ensures match Tick(cfg, old(View()), inputs)
              case Panicked => output.Panicked? && View() == old(View())
              case Returned(it) => View() == it.state && output == Returned(it.output)
      ensures output.Panicked? <==> RunLoop(cfg, Start(rate), old(past) + [inputs]).Panicked?
      ensures output.Returned? ==>
                Valid() && past == old(past) + [inputs] && outputs == old(outputs) + [output.value]
    {
      hide Iterate, RunLoop, Start;
      RunNext(cfg, Start(rate), past, inputs);
      if |inputs.peers| == 0 {
        output := Returned(Skipped);
      } else {
        output := RunFusionIteration(inputs);
      }
      if output.Returned? {
        past, outputs := past + [inputs], outputs + [output.value];
      }
    }
  }

  // ----- whole runs

  datatype Run = Run(state: LoopState, outputs: seq<Output>)

  /** The loop over a sequence of inputs; a panic ends it. */
  function RunLoop(cfg: FilterCfg, st: LoopState, inputs: seq<Inputs>): Outcome<Run> {
    if |inputs| == 0 then Returned(Run(st, []))
    else
      match RunLoop(cfg, st, inputs[..|inputs| - 1])
      case Panicked => Panicked
      case Returned(before) =>
        match Tick(cfg, before.state, inputs[|inputs| - 1])
        case Panicked => Panicked
        case Returned(it) => Returned(Run(it.state, before.outputs + [it.output]))
  }

  /** The loop panics exactly when the configured ratio is at least one and some iteration,
      with a peer configured, finds a usable source. */
  lemma {:induction false} PanicsExactlyWhen(cfg: FilterCfg, st: LoopState, inputs: seq<Inputs>)
    ensures RunLoop(cfg, st, inputs).Panicked? <==>
            cfg.trimRatio >= 1.0
            && exists i :: 0 <= i < |inputs| && |inputs[i].peers| > 0 && |Gathered(cfg, inputs[i])| > 0
  {
    hide Gathered, KeptOf, StatsOf, Absorb, SelectBestPeers;
    if |inputs| > 0 {
      var before, last := inputs[..|inputs| - 1], inputs[|inputs| - 1];
      PanicsExactlyWhen(cfg, st, before);
      var samples := Gathered(cfg, last);
      if |samples| > 0 {
        KeepCountBounds(|samples|, cfg.bestQuantile);
        TrimmingOutcome(SelectBestPeers(samples, cfg.bestQuantile), cfg.trimRatio);
      }
    }
  }

  lemma RunNext(cfg: FilterCfg, st: LoopState, inputs: seq<Inputs>, next: Inputs)
    requires RunLoop(cfg, st, inputs).Returned?
    ensures var run := RunLoop(cfg, st, inputs).value;
            RunLoop(cfg, st, inputs + [next]) ==
            match Tick(cfg, run.state, next)
            case Panicked => Panicked
            case Returned(it) => Returned(Run(it.state, run.outputs + [it.output]))
  {
    hide Tick;
    assert (inputs + [next])[..|inputs|] == inputs;
  }

  // ----- the ring

  /** Everything ever pushed to the ring, in order. */
  function Pushes(inputs: seq<Inputs>, outputs: seq<Output>): seq<Point>
    requires |inputs| == |outputs|
  {
    if |inputs| == 0 then []
    else
      var i := |inputs| - 1;
      var before := Pushes(inputs[..i], outputs[..i]);
      if outputs[i].Fused? then before + [Point(inputs[i].ts, ToI64(outputs[i].smoothed))] else before
  }

  lemma {:induction false} RunLength(cfg: FilterCfg, st: LoopState, inputs: seq<Inputs>, run: Run)
    requires RunLoop(cfg, st, inputs) == Returned(run)
    ensures |run.outputs| == |inputs|
  {
    hide Tick;
    if |inputs| > 0 {
      RunLength(cfg, st, inputs[..|inputs| - 1], RunLoop(cfg, st, inputs[..|inputs| - 1]).value);
    }
  }

  /** In every state of every run the ring is exactly the last 512 pushes (all of them while
      there are fewer), and the last output's drift is the regression over it. */
  lemma {:induction false} RingIsLastPushes(cfg: FilterCfg, rate: real, inputs: seq<Inputs>, run: Run)
    requires RunLoop(cfg, Start(rate), inputs) == Returned(run)
    ensures |run.outputs| == |inputs|
    ensures run.state.ring == LastOnes(Pushes(inputs, run.outputs), RING_CAPACITY)
    ensures |inputs| > 0 && run.outputs[|inputs| - 1].Fused? ==>
              run.outputs[|inputs| - 1].driftPpm == DriftOf(run.state.ring)
  {
    hide Gathered, Fuse, Smooth, DriftOf, ToI64, LastOnes;
    if |inputs| == 0 {
      RingStart();
    } else {
      var before := RunLoop(cfg, Start(rate), inputs[..|inputs| - 1]).value;
      RingIsLastPushes(cfg, rate, inputs[..|inputs| - 1], before);
      assert run.outputs[..|inputs| - 1] == before.outputs;
      var out := run.outputs[|inputs| - 1];
      if out.Fused? {
        LastOnesAppend(Pushes(inputs[..|inputs| - 1], before.outputs),
                       Point(inputs[|inputs| - 1].ts, ToI64(out.smoothed)), RING_CAPACITY);
      }
    }
  }

  lemma RingStart()
    ensures LastOnes<Point>([], RING_CAPACITY) == []
  {
  }
}
