/** Symmetries of whole runs of the fusion loop, src/net/node.rs lines 372-471. */
module FusionRuns {
  import opened Wrappers
  import opened StableSort
  import opened Fusion
  import opened Breakdown
  import opened FusionLaws
  import opened Ewma
  import opened FusionLoop

  // ----- translation over runs

  /** The same source with c added to every offset. */
  ghost predicate SourceShifted(a: Source, b: Source, c: real) {
    && b == a.(offsets := b.offsets)
    && |b.offsets| == |a.offsets|
    && forall i :: 0 <= i < |a.offsets| ==> b.offsets[i] == (a.offsets[i].0, a.offsets[i].1 + c)
  }

  ghost predicate SourcesShifted(a: seq<Source>, b: seq<Source>, c: real) {
    |a| == |b| && forall i :: 0 <= i < |a| ==> SourceShifted(a[i], b[i], c)
  }

  ghost predicate InputsShifted(a: Inputs, b: Inputs, c: real) {
    SourcesShifted(a.peers, b.peers, c) && SourcesShifted(a.ntp, b.ntp, c) && a.ts == b.ts
  }

  lemma SummaryShifts(a: Source, b: Source, defaultWeight: real, c: real)
    requires SourceShifted(a, b, c) && |a.offsets| > 0
    ensures Summary(b, defaultWeight) == Shifted(c)(Summary(a, defaultWeight))
  {
    SummaryTranslates(a.id, a.weight.GetOr(defaultWeight), Values(a.offsets), Values(b.offsets),
                      Values(a.delays), Values(a.jitters), c);
  }

  lemma {:induction false} GatherTranslates(a: seq<Source>, b: seq<Source>, limit: nat, defaultWeight: real, c: real)
    requires SourcesShifted(a, b, c) && limit > 0
    ensures Gather(b, limit, defaultWeight) == Map(Shifted(c), Gather(a, limit, defaultWeight))
  {
    hide Summary, Shifted, SourceShifted, Map;
    if |a| > 0 {
      var x, y := a[|a| - 1], b[|b| - 1];
      GatherTranslates(a[..|a| - 1], b[..|b| - 1], limit, defaultWeight, c);
      assert SourceShifted(x, y, c);
      SameOffsetCount(x, y, c);
      if |x.offsets| >= limit {
        SummaryShifts(x, y, defaultWeight, c);
      }
    }
  }

  lemma SameOffsetCount(a: Source, b: Source, c: real)
    requires SourceShifted(a, b, c)
    ensures |a.offsets| == |b.offsets| && a.id == b.id
  {
  }

  lemma {:induction false} OthersTranslates(a: seq<Source>, b: seq<Source>, nodeId: nat, c: real)
    requires SourcesShifted(a, b, c)
    ensures SourcesShifted(Others(a, nodeId), Others(b, nodeId), c)
  {
    hide SourceShifted;
    if |a| > 0 {
      OthersTranslates(a[..|a| - 1], b[..|b| - 1], nodeId, c);
      assert SourceShifted(a[|a| - 1], b[|b| - 1], c);
      SameOffsetCount(a[|a| - 1], b[|b| - 1], c);
    }
  }

  lemma GatheredTranslates(cfg: FilterCfg, a: Inputs, b: Inputs, c: real)
    requires InputsShifted(a, b, c)
    ensures Gathered(cfg, b) == Map(Shifted(c), Gathered(cfg, a))
  {
    hide SourcesShifted, Gather, Map, Others;
    OthersTranslates(a.peers, b.peers, cfg.nodeId, c);
    GatherTranslates(Others(a.peers, cfg.nodeId), Others(b.peers, cfg.nodeId), Limit(cfg), PEER_DEFAULT_WEIGHT, c);
    GatherTranslates(a.ntp, b.ntp, Limit(cfg), NTP_DEFAULT_WEIGHT, c);
  }

  ghost predicate EwmaShifted(a: EwmaState, b: EwmaState, c: real) {
    a.rate == b.rate && a.init == b.init && (a.init ==> b.state == a.state + c)
  }

  ghost predicate OutputShifted(a: Output, b: Output, c: real) {
    match a
    case Skipped => b.Skipped?
    case Fused(stats, smoothed, _) => b.Fused? && StatsShifted(stats, b.stats, c) && b.smoothed == smoothed + c
  }

  ghost predicate IterationShifted(a: Outcome<Iteration>, b: Outcome<Iteration>, c: real) {
    && a.Returned? == b.Returned?
    && (a.Returned? ==>
          && EwmaShifted(a.value.state.ewma, b.value.state.ewma, c)
          && OutputShifted(a.value.output, b.value.output, c))
  }

  lemma IterationTranslates(cfg: FilterCfg, st: LoopState, st': LoopState, a: Inputs, b: Inputs, c: real)
    requires InputsShifted(a, b, c) && EwmaShifted(st.ewma, st'.ewma, c)
    ensures IterationShifted(Iterate(cfg, st, a), Iterate(cfg, st', b), c)
  {
    hide Gathered, Fuse, Shifted, InputsShifted, Smooth, StatsShifted;
    GatheredTranslates(cfg, a, b, c);
    var samples := Gathered(cfg, a);
    FusionTranslates(samples, cfg.bestQuantile, cfg.trimRatio, c);
    var fused := Fuse(samples, cfg.bestQuantile, cfg.trimRatio);
    if fused.Returned? {
      var stats := Fuse(Map(Shifted(c), samples), cfg.bestQuantile, cfg.trimRatio).value;
      SmoothTranslates(st.ewma, st'.ewma, fused.value, stats, c);
    }
  }

  lemma SmoothTranslates(e: EwmaState, e': EwmaState, a: TrimmedStats, b: TrimmedStats, c: real)
    requires EwmaShifted(e, e', c) && StatsShifted(a, b, c)
    ensures var s, s' := Smooth(e, a.meanOffset, a.totalWeight), Smooth(e', b.meanOffset, b.totalWeight);
            EwmaShifted(s, s', c) && s'.state == s.state + c
  {
  }

  lemma TickTranslates(cfg: FilterCfg, st: LoopState, st': LoopState, a: Inputs, b: Inputs, c: real)
    requires InputsShifted(a, b, c) && EwmaShifted(st.ewma, st'.ewma, c)
    ensures IterationShifted(Tick(cfg, st, a), Tick(cfg, st', b), c)
  {
    hide Iterate, EwmaShifted, SourceShifted;
    IterationTranslates(cfg, st, st', a, b, c);
  }

  ghost predicate RunShifted(a: Outcome<Run>, b: Outcome<Run>, c: real) {
    && a.Returned? == b.Returned?
    && (a.Returned? ==>
          && EwmaShifted(a.value.state.ewma, b.value.state.ewma, c)
          && |a.value.outputs| == |b.value.outputs|
          && forall i :: 0 <= i < |a.value.outputs| ==> OutputShifted(a.value.outputs[i], b.value.outputs[i], c))
  }

  /** Translation equivariance over runs: adding c to every stored offset in every iteration
      adds exactly c to every fused mean and every smoothed value, and leaves the iterations
      that are skipped, the kept peers, mean delays, weights and panics as they are. */
  lemma {:induction false} RunTranslates(cfg: FilterCfg, rate: real, a: seq<Inputs>, b: seq<Inputs>, c: real)
    requires |a| == |b| && forall i :: 0 <= i < |a| ==> InputsShifted(a[i], b[i], c)
    ensures RunShifted(RunLoop(cfg, Start(rate), a), RunLoop(cfg, Start(rate), b), c)
  {
    hide Tick, InputsShifted, OutputShifted;
    if |a| > 0 {
      var before, before' := a[..|a| - 1], b[..|b| - 1];
      RunTranslates(cfg, rate, before, before', c);
      var r, r' := RunLoop(cfg, Start(rate), before), RunLoop(cfg, Start(rate), before');
      if r.Returned? {
        TickTranslates(cfg, r.value.state, r'.value.state, a[|a| - 1], b[|b| - 1], c);
      }
    }
  }

  // ----- the order of the configured sources

  lemma {:induction false} GatherConcat(a: seq<Source>, b: seq<Source>, limit: nat, defaultWeight: real)
    ensures Gather(a + b, limit, defaultWeight) == Gather(a, limit, defaultWeight) + Gather(b, limit, defaultWeight)
  {
    hide Summary;
    if |b| == 0 {
      assert a + b == a;
    } else {
      GatherConcat(a, b[..|b| - 1], limit, defaultWeight);
      assert (a + b)[..|a + b| - 1] == a + b[..|b| - 1];
    }
  }

  lemma {:induction false} OthersConcat(a: seq<Source>, b: seq<Source>, nodeId: nat)
    ensures Others(a + b, nodeId) == Others(a, nodeId) + Others(b, nodeId)
  {
    if |b| == 0 {
      assert a + b == a;
    } else {
      OthersConcat(a, b[..|b| - 1], nodeId);
      assert (a + b)[..|a + b| - 1] == a + b[..|b| - 1];
    }
  }

  lemma GatherRemove(s: seq<Source>, j: nat, limit: nat, defaultWeight: real)
    requires j < |s|
    ensures multiset(Gather(s, limit, defaultWeight)) ==
            multiset(Gather(s[..j] + s[j + 1..], limit, defaultWeight)) + multiset(Gather([s[j]], limit, defaultWeight))
  {
    hide Gather;
    GatherConcat(s[..j], s[j + 1..], limit, defaultWeight);
    GatherConcat(s[..j], [s[j]], limit, defaultWeight);
    GatherConcat(s[..j] + [s[j]], s[j + 1..], limit, defaultWeight);
    assert s == s[..j] + [s[j]] + s[j + 1..];
  }

  lemma OthersRemove(s: seq<Source>, j: nat, nodeId: nat)
    requires j < |s|
    ensures multiset(Others(s, nodeId)) ==
        multiset(Others(s[..j] + s[j + 1..], nodeId)) + multiset(Others([s[j]], nodeId))
  {
    hide Others;
    OthersConcat(s[..j], s[j + 1..], nodeId);
    OthersConcat(s[..j], [s[j]], nodeId);
    OthersConcat(s[..j] + [s[j]], s[j + 1..], nodeId);
    assert s == s[..j] + [s[j]] + s[j + 1..];
  }

  lemma WithoutOne<T>(s: seq<T>, j: nat)
    requires j < |s|
    ensures multiset(s) == multiset(s[..j] + s[j + 1..]) + multiset{s[j]}
  {
    assert s == s[..j] + [s[j]] + s[j + 1..];
  }

  lemma Removed<T>(a: seq<T>, b: seq<T>) returns (j: nat)
    requires Permuted(a, b) && |a| > 0
    ensures j < |b| && b[j] == a[|a| - 1] && Permuted(a[..|a| - 1], b[..j] + b[j + 1..])
  {
    var x := a[|a| - 1];
    assert a == a[..|a| - 1] + [x];
    assert x in multiset(b);
    j :| 0 <= j < |b| && b[j] == x;
    WithoutOne(b, j);
    assert multiset(a[..|a| - 1]) == multiset(a) - multiset{x};
    assert multiset(b[..j] + b[j + 1..]) == multiset(b) - multiset{x};
  }

  lemma {:induction false} GatherPermuted(a: seq<Source>, b: seq<Source>, limit: nat, defaultWeight: real)
    requires Permuted(a, b)
    ensures Permuted(Gather(a, limit, defaultWeight), Gather(b, limit, defaultWeight))
  {
    hide Gather;
    SameLengths(a, b);
    if |a| > 0 {
      var j := Removed(a, b);
      GatherPermuted(a[..|a| - 1], b[..j] + b[j + 1..], limit, defaultWeight);
      GatherRemove(a, |a| - 1, limit, defaultWeight);
      GatherRemove(b, j, limit, defaultWeight);
      assert a[..|a| - 1] + a[|a|..] == a[..|a| - 1];
    } else {
      assert a == b;
    }
  }

  lemma {:induction false} OthersPermuted(a: seq<Source>, b: seq<Source>, nodeId: nat)
    requires Permuted(a, b)
    ensures Permuted(Others(a, nodeId), Others(b, nodeId))
  {
    hide Others;
    SameLengths(a, b);
    if |a| > 0 {
      var j := Removed(a, b);
      OthersPermuted(a[..|a| - 1], b[..j] + b[j + 1..], nodeId);
      OthersRemove(a, |a| - 1, nodeId);
      OthersRemove(b, j, nodeId);
      assert a[..|a| - 1] + a[|a|..] == a[..|a| - 1];
    } else {
      assert a == b;
    }
  }

  /** The same sources, configured in another order. */
  ghost predicate Reordered(a: Inputs, b: Inputs) {
    Permuted(a.peers, b.peers) && Permuted(a.ntp, b.ntp) && a.ts == b.ts
  }

  /** Neither selection nor trimming has to break a tie. */
  ghost predicate TieFree(cfg: FilterCfg, inputs: Inputs) {
    var samples := Gathered(cfg, inputs);
    && (|samples| > 0 ==> ClearCut(PeerScore, SortBy(PeerScore, samples), KeepCount(|samples|, cfg.bestQuantile)))
    && KeysIdentify(OffsetOf, SelectBestPeers(samples, cfg.bestQuantile))
  }

  lemma GatheredPermuted(cfg: FilterCfg, a: Inputs, b: Inputs)
    requires Reordered(a, b)
    ensures Permuted(Gathered(cfg, b), Gathered(cfg, a))
  {
    hide Gather, Others;
    OthersPermuted(a.peers, b.peers, cfg.nodeId);
    GatherPermuted(Others(a.peers, cfg.nodeId), Others(b.peers, cfg.nodeId), Limit(cfg), PEER_DEFAULT_WEIGHT);
    GatherPermuted(a.ntp, b.ntp, Limit(cfg), NTP_DEFAULT_WEIGHT);
  }

  lemma IterationOrder(cfg: FilterCfg, st: LoopState, a: Inputs, b: Inputs)
    requires Reordered(a, b) && TieFree(cfg, a)
    ensures Tick(cfg, st, b) == Tick(cfg, st, a)
  {
    hide Gathered, Fuse, Absorb, ClearCut, KeysIdentify, SortBy, SelectBestPeers;
    GatheredPermuted(cfg, a, b);
    SameLengths(Gathered(cfg, a), Gathered(cfg, b));
    SameLengths(a.peers, b.peers);
    FusionOrder(Gathered(cfg, a), Gathered(cfg, b), cfg.bestQuantile, cfg.trimRatio);
  }

  /** Order independence over runs: while no iteration has to break a tie, the order in which
      peers and NTP sources are configured, even if it changes between iterations, does not
      change a single output. */
  lemma {:induction false} RunOrder(cfg: FilterCfg, st: LoopState, a: seq<Inputs>, b: seq<Inputs>)
    requires |a| == |b| && forall i :: 0 <= i < |a| ==> Reordered(a[i], b[i]) && TieFree(cfg, a[i])
    ensures RunLoop(cfg, st, b) == RunLoop(cfg, st, a)
  {
    hide Tick, Reordered, TieFree;
    if |a| > 0 {
      RunOrder(cfg, st, a[..|a| - 1], b[..|b| - 1]);
      var r := RunLoop(cfg, st, a[..|a| - 1]);
      if r.Returned? {
        IterationOrder(cfg, r.value.state, a[|a| - 1], b[|b| - 1]);
      }
    }
  }
}
