/** The drift estimate over whole runs of the fusion loop, src/net/node.rs lines 460-469 with
    src/time/drift.rs: what the ring of truncated offsets lets the regression see. */
module RunDrift {
  import opened Wrappers
  import opened Numeric
  import opened Breakdown
  import opened Drift
  import opened FusionLoop
  import opened RunAccuracy

  /** The drift reported by the last iteration of a run, when it fused and had enough points. */
  function LastDrift(run: Run): Option<real> {
    if |run.outputs| > 0 && run.outputs[|run.outputs| - 1].Fused? then run.outputs[|run.outputs| - 1].driftPpm else None
  }

  lemma LastDriftIsRegression(cfg: FilterCfg, rate: real, inputs: seq<Inputs>, run: Run)
    requires RunLoop(cfg, Start(rate), inputs) == Returned(run) && LastDrift(run).Some?
    ensures |run.outputs| == |inputs|
    ensures var ring := LastOnes(Pushes(inputs, run.outputs), RING_CAPACITY);
            |ring| >= 3 && LastDrift(run).value == 1000.0 * Slope(ring)
  {
    hide RunLoop, Slope, LastOnes, Pushes;
    RingIsLastPushes(cfg, rate, inputs, run);
  }

  lemma TailSpaced(s: seq<Point>, n: nat, gap: nat)
    requires Spaced(s, gap)
    ensures Spaced(LastOnes(s, n), gap)
  {
  }

  /** When the smoothed offsets follow a line, every reported drift is a thousand times its
      slope, up to the truncation of the ring's entries over the spacing of the iterations. */
  lemma DriftFollowsLine(cfg: FilterCfg, rate: real, inputs: seq<Inputs>, run: Run, a: real, b: real, gap: nat)
    requires RunLoop(cfg, Start(rate), inputs) == Returned(run) && |run.outputs| == |inputs| && LastDrift(run).Some?
    requires gap > 0 && Spaced(Pushes(inputs, run.outputs), gap) && TruncatedLine(Pushes(inputs, run.outputs), a, b)
    ensures 1000.0 * (b - 2.0 / gap as real) <= LastDrift(run).value <= 1000.0 * (b + 2.0 / gap as real)
  {
    hide RunLoop, Slope, Spaced, Truncated, LastDrift, Pushes;
    LastDriftIsRegression(cfg, rate, inputs, run);
    var pushes := Pushes(inputs, run.outputs);
    TailSpaced(pushes, RING_CAPACITY, gap);
    assert TruncatedLine(LastOnes(pushes, RING_CAPACITY), a, b);
    TruncationError(LastOnes(pushes, RING_CAPACITY), a, b, gap);
  }

  // ----- drift inside the accuracy band

  ghost predicate InRange(p: Point, lo: real, hi: real) {
    lo - 1.0 <= O(p) <= hi + 1.0
  }

  ghost predicate AllInRange(s: seq<Point>, lo: real, hi: real) {
    forall i :: 0 <= i < |s| ==> InRange(s[i], lo, hi)
  }

  lemma {:induction false} PushesInRange(inputs: seq<Inputs>, outputs: seq<Output>, lo: real, hi: real)
    requires |inputs| == |outputs| && I64_MIN as real <= lo && hi <= I64_MAX as real
    requires forall i :: 0 <= i < |outputs| ==> InBand(outputs[i], lo, hi)
    ensures AllInRange(Pushes(inputs, outputs), lo, hi)
  {
    hide ToI64;
    if |inputs| > 0 {
      var i := |inputs| - 1;
      PushesInRange(inputs[..i], outputs[..i], lo, hi);
      if outputs[i].Fused? {
        assert InBand(outputs[i], lo, hi);
        ToI64Error(outputs[i].smoothed);
      }
    }
  }

  lemma FlatPair(p: Point, q: Point, lo: real, hi: real, gap: nat, w: real)
    requires gap > 0 && q.t >= p.t + gap && InRange(p, lo, hi) && InRange(q, lo, hi)
    requires w * gap as real == hi - lo + 2.0
    ensures -w <= PairSlope(p, q) <= w
  {
    var d, e := T(q) - T(p), O(q) - O(p);
    assert d >= gap as real;
    if w < 0.0 {
      ProductPositive(-w, gap as real);
    }
    ProductNonNegative(w, d - gap as real);
    BandQuotient(-w, w, d, e);
  }

  /** While every iteration is safe for the band [lo, hi], no reported drift exceeds a
      thousand times the width of the band, plus two, over the spacing of the iterations. */
  lemma DriftStaysBounded(cfg: FilterCfg, rate: real, inputs: seq<Inputs>, run: Run, lo: real, hi: real, gap: nat)
    requires RunLoop(cfg, Start(rate), inputs) == Returned(run) && |run.outputs| == |inputs| && LastDrift(run).Some?
    requires forall i :: 0 <= i < |inputs| ==> Safe(cfg, inputs[i], lo, hi)
    requires I64_MIN as real <= lo && hi <= I64_MAX as real
    requires gap > 0 && Spaced(Pushes(inputs, run.outputs), gap)
    ensures Abs(LastDrift(run).value) <= 1000.0 * ((hi - lo + 2.0) / gap as real)
  {
    hide RunLoop, Slope, Spaced, LastDrift, Pushes, Safe, PairSlope, InRange, Den, InBand;
    LastDriftIsRegression(cfg, rate, inputs, run);
    RunInBand(cfg, rate, inputs, lo, hi);
    PushesInRange(inputs, run.outputs, lo, hi);
    var pushes := Pushes(inputs, run.outputs);
    TailSpaced(pushes, RING_CAPACITY, gap);
    var ring := LastOnes(pushes, RING_CAPACITY);
    assert AllInRange(ring, lo, hi);
    FlatRing(ring, lo, hi, gap);
  }

  /** The same without any spacing: with the outputs of a run in [lo, hi], the drift times the
      squared deviations of the ring's times is at most a thousand times half the width of the
      band, plus one, times their spread.  It falls as the ring fills and spreads out. */
  lemma DriftOfBand(cfg: FilterCfg, rate: real, inputs: seq<Inputs>, run: Run, lo: real, hi: real)
    requires RunLoop(cfg, Start(rate), inputs) == Returned(run) && LastDrift(run).Some?
    requires RunWithin(run, lo, hi) && I64_MIN as real <= lo && hi <= I64_MAX as real
    ensures var ring := run.state.ring;
            && |ring| > 0
            && Abs(LastDrift(run).value * Den(ring)) <=
                1000.0 * ((hi - lo + 2.0) / 2.0 * TimeSpread(ring, Mean(T, ring)))
  {
    hide RunLoop, Slope, LastDrift, Pushes, Den, InBand, TimeSpread, Mean, LastOnes, ToI64;
    LastDriftIsRegression(cfg, rate, inputs, run);
    RingIsLastPushes(cfg, rate, inputs, run);
    PushesInRange(inputs, run.outputs, lo, hi);
    RingInRange(Pushes(inputs, run.outputs), lo, hi);
    var ring := run.state.ring;
    BandIsNear(ring, lo, hi);
    SlopeOfBand(ring, (lo + hi) / 2.0, (hi - lo + 2.0) / 2.0);
    Thousand(LastDrift(run).value, Slope(ring), Den(ring), (hi - lo + 2.0) / 2.0 * TimeSpread(ring, Mean(T, ring)));
  }

  lemma RingInRange(pushes: seq<Point>, lo: real, hi: real)
    requires AllInRange(pushes, lo, hi)
    ensures AllInRange(LastOnes(pushes, RING_CAPACITY), lo, hi)
  {
    hide InRange;
  }

  lemma BandIsNear(s: seq<Point>, lo: real, hi: real)
    requires AllInRange(s, lo, hi)
    ensures OffsetsNear(s, (lo + hi) / 2.0, (hi - lo + 2.0) / 2.0)
  {
    forall i | 0 <= i < |s| ensures Abs(O(s[i]) - (lo + hi) / 2.0) <= (hi - lo + 2.0) / 2.0 {
      assert InRange(s[i], lo, hi);
    }
  }

  lemma Thousand(drift: real, slope: real, den: real, bound: real)
    requires drift == 1000.0 * slope && Abs(slope * den) <= bound
    ensures Abs(drift * den) <= 1000.0 * bound
  {
    assert drift * den == 1000.0 * (slope * den);
  }

  lemma FlatRing(ring: seq<Point>, lo: real, hi: real, gap: nat)
    requires |ring| >= 3 && gap > 0 && Spaced(ring, gap) && AllInRange(ring, lo, hi)
    ensures Abs(Slope(ring)) <= (hi - lo + 2.0) / gap as real
  {
    hide Slope, PairSlope, InRange, Den;
    var w := (hi - lo + 2.0) / gap as real;
    assert w * gap as real == hi - lo + 2.0;
    forall i, j | 0 <= i < j < |ring| && ring[i].t != ring[j].t ensures -w <= PairSlope(ring[i], ring[j]) <= w {
      FlatPair(ring[i], ring[j], lo, hi, gap, w);
    }
    assert SlopesWithin(ring, -w, w);
    assert ring[0].t != ring[1].t;
    DenVanishes(ring);
    SlopeAmongPairSlopes(ring, -w, w);
  }

  // ----- drift under a ramp of the fused means

  /** What one fusion of a run took in and put out. */
  datatype Reading = Reading(ts: nat, mean: real, weight: real, smoothed: real)

  function Readings(inputs: seq<Inputs>, outputs: seq<Output>): seq<Reading>
    requires |inputs| == |outputs|
  {
    if |inputs| == 0 then []
    else
      var i := |inputs| - 1;
      var before := Readings(inputs[..i], outputs[..i]);
      if outputs[i].Fused? then
        before + [Reading(inputs[i].ts, outputs[i].stats.meanOffset, outputs[i].stats.totalWeight, outputs[i].smoothed)]
      else before
  }

  lemma {:induction false} PushesAreReadings(inputs: seq<Inputs>, outputs: seq<Output>)
    requires |inputs| == |outputs|
    ensures |Pushes(inputs, outputs)| == |Readings(inputs, outputs)|
    ensures forall j :: 0 <= j < |Readings(inputs, outputs)| ==>
              Pushes(inputs, outputs)[j] ==
                  Point(Readings(inputs, outputs)[j].ts, ToI64(Readings(inputs, outputs)[j].smoothed))
  {
    hide ToI64;
    if |inputs| > 0 {
      PushesAreReadings(inputs[..|inputs| - 1], outputs[..|inputs| - 1]);
    }
  }

  function PushesOf(readings: seq<Reading>): (r: seq<Ewma.Sample>)
    ensures |r| == |readings|
    ensures forall i :: 0 <= i < |r| ==> r[i] == Ewma.Sample(readings[i].mean, readings[i].weight)
  {
    seq(|readings|, i requires 0 <= i < |readings| => Ewma.Sample(readings[i].mean, readings[i].weight))
  }

  /** The smoother's state is what the readings pushed, and each reading shows it at its time. */
  ghost predicate Tracks(start: Ewma.EwmaState, now: Ewma.EwmaState, readings: seq<Reading>) {
    && now == Ewma.PushAll(start, PushesOf(readings))
    && forall j :: 0 <= j < |readings| ==>
        readings[j].smoothed == Ewma.PushAll(start, PushesOf(readings[..j + 1])).state
  }

  lemma TracksMore(start: Ewma.EwmaState, now: Ewma.EwmaState, readings: seq<Reading>, r: Reading)
    requires Tracks(start, now, readings) && r.smoothed == Ewma.Smooth(now, r.mean, r.weight).state
    ensures Tracks(start, Ewma.Smooth(now, r.mean, r.weight), readings + [r])
  {
    hide Ewma.Smooth;
    var more := readings + [r];
    assert PushesOf(more)[..|readings|] == PushesOf(readings);
    assert more[..|readings| + 1] == more;
    forall j | 0 <= j < |readings| ensures more[j].smoothed == Ewma.PushAll(start, PushesOf(more[..j + 1])).state {
      assert more[..j + 1] == readings[..j + 1];
    }
  }

  lemma {:induction false} RunTracks(cfg: FilterCfg, rate: real, inputs: seq<Inputs>, run: Run)
    requires RunLoop(cfg, Start(rate), inputs) == Returned(run)
    ensures |run.outputs| == |inputs|
    ensures Tracks(Start(rate).ewma, run.state.ewma, Readings(inputs, run.outputs))
  {
    hide Gathered, Fuse, Ewma.Smooth, DriftOf, ToI64, LastOnes, Tracks;
    if |inputs| == 0 {
      TracksNothing(Start(rate).ewma);
    } else {
      var i := |inputs| - 1;
      var before := RunLoop(cfg, Start(rate), inputs[..i]).value;
      RunTracks(cfg, rate, inputs[..i], before);
      assert run.outputs[..i] == before.outputs;
      var out := run.outputs[i];
      if out.Fused? {
        TracksMore(Start(rate).ewma, before.state.ewma, Readings(inputs[..i], before.outputs),
                   Reading(inputs[i].ts, out.stats.meanOffset, out.stats.totalWeight, out.smoothed));
      }
    }
  }

  lemma TracksNothing(start: Ewma.EwmaState)
    ensures Tracks(start, start, [])
  {
  }

  /** The fused means follow a + b t up to `noise`, at constant spacing and weight. */
  ghost predicate MeansRamp(readings: seq<Reading>, a: real, b: real, gap: nat, weight: real, noise: real) {
    forall j :: 0 <= j < |readings| ==>
      && readings[j].ts == readings[0].ts + j * gap
      && Abs(readings[j].mean - (a + b * readings[j].ts as real)) <= noise
      && readings[j].weight == weight
  }

  lemma RampMean(a: real, b: real, t0: int, j: int, gap: int)
    ensures a + b * (t0 + j * gap) as real == a + b * t0 as real + Product(j as real, b * gap as real)
  {
    assert (t0 + j * gap) as real == t0 as real + j as real * gap as real;
    assert b * (j as real * gap as real) == j as real * (b * gap as real);
  }

  /** What would have been pushed without the noise. */
  function Line(readings: seq<Reading>, a: real, b: real, weight: real): (r: seq<Ewma.Sample>)
    ensures |r| == |readings|
    ensures forall i :: 0 <= i < |r| ==> r[i] == Ewma.Sample(a + b * readings[i].ts as real, weight)
  {
    seq(|readings|, i requires 0 <= i < |readings| => Ewma.Sample(a + b * readings[i].ts as real, weight))
  }

  lemma LineIsRamp(readings: seq<Reading>, a: real, b: real, gap: nat, weight: real, noise: real, n: nat)
    requires n <= |readings| && |readings| > 0 && MeansRamp(readings, a, b, gap, weight, noise)
    ensures Ewma.Ramp(Line(readings[..n], a, b, weight), a + b * readings[0].ts as real, b * gap as real, weight)
  {
    hide Product;
    var pushes := Line(readings[..n], a, b, weight);
    forall j | 0 <= j < n
      ensures pushes[j] == Ewma.Sample(a + b * readings[0].ts as real + Product(j as real, b * gap as real), weight)
    {
      RampMean(a, b, readings[0].ts, j, gap);
    }
  }

  lemma PushesNearLine(readings: seq<Reading>, a: real, b: real, gap: nat, weight: real, noise: real, n: nat)
    requires n <= |readings| && MeansRamp(readings, a, b, gap, weight, noise)
    ensures var p, l := PushesOf(readings[..n]), Line(readings[..n], a, b, weight);
            forall i :: 0 <= i < n ==> p[i].weight == l[i].weight && Abs(p[i].value - l[i].value) <= noise
  {
    var p, l := PushesOf(readings[..n]), Line(readings[..n], a, b, weight);
    forall i | 0 <= i < n ensures p[i].weight == l[i].weight && Abs(p[i].value - l[i].value) <= noise {
      assert p[i] == Ewma.Sample(readings[i].mean, readings[i].weight);
      assert l[i] == Ewma.Sample(a + b * readings[i].ts as real, weight);
    }
  }

  /** Where the smoother is after j + 1 exact means: on the line, behind by the lag, apart from a
      decaying rest. */
  function RampAt(ts: nat, j: nat, a: real, b: real, gap: nat, alpha: real): real
    requires alpha > 0.0
  {
    var lag := Ewma.Lag(alpha, b * gap as real);
    a + b * ts as real - lag + Ewma.Decay(lag, 1.0 - alpha, j)
  }

  ghost predicate SmoothedRamp(r: Reading, j: nat, a: real, b: real, gap: nat, alpha: real, noise: real)
    requires alpha > 0.0
  {
    Abs(r.smoothed - RampAt(r.ts, j, a, b, gap, alpha)) <= noise
  }

  lemma LineSmoothed(rate: real, readings: seq<Reading>, a: real, b: real, gap: nat, weight: real, noise: real, j: nat)
    requires j < |readings| && MeansRamp(readings, a, b, gap, weight, noise) && Ewma.Alpha(Clamp01(rate), weight) > 0.0
    ensures Ewma.PushAll(Start(rate).ewma, Line(readings[..j + 1], a, b, weight)).state
            == RampAt(readings[j].ts, j, a, b, gap, Ewma.Alpha(Clamp01(rate), weight))
  {
    hide Ewma.Alpha, Ewma.Lag, Ewma.Decay, Ewma.Ramp, Ewma.PushAll, Clamp01, MeansRamp;
    var line := Line(readings[..j + 1], a, b, weight);
    LineIsRamp(readings, a, b, gap, weight, noise, j + 1);
    Ewma.RampFollowed(Start(rate).ewma, line, a + b * readings[0].ts as real, b * gap as real, weight);
    assert line[j].value == a + b * readings[j].ts as real;
  }

  /** When the fused means of a run follow a + b t up to some noise, at constant spacing and
      weight, every smoothed offset follows, up to the same noise, that line, shifted by
      b g (1 - alpha) / alpha, plus the part of the shift that has not built up yet. */
  lemma SmoothedFollowsRamp(cfg: FilterCfg, rate: real, inputs: seq<Inputs>, run: Run,
                            a: real, b: real, gap: nat, weight: real, noise: real, j: nat)
    requires RunLoop(cfg, Start(rate), inputs) == Returned(run) && |run.outputs| == |inputs|
    requires j < |Readings(inputs, run.outputs)| && MeansRamp(Readings(inputs, run.outputs), a, b, gap, weight, noise)
    requires Ewma.Alpha(Clamp01(rate), weight) > 0.0
    ensures SmoothedRamp(Readings(inputs, run.outputs)[j], j, a, b, gap, Ewma.Alpha(Clamp01(rate), weight), noise)
  {
    hide RunLoop, Readings, Ewma.Alpha, Ewma.PushAll, Clamp01, MeansRamp, RampAt;
    RunTracks(cfg, rate, inputs, run);
    var readings := Readings(inputs, run.outputs);
    var upTo := readings[..j + 1];
    LineSmoothed(rate, readings, a, b, gap, weight, noise, j);
    PushesNearLine(readings, a, b, gap, weight, noise, j + 1);
    Ewma.StatesClose(Start(rate).ewma, PushesOf(upTo), Line(upTo, a, b, weight), noise);
    assert readings[j].smoothed == Ewma.PushAll(Start(rate).ewma, PushesOf(upTo)).state;
  }

  /** The smoothed offsets stay in any range that holds the fused means. */
  lemma SmoothedInRange(cfg: FilterCfg, rate: real, inputs: seq<Inputs>, run: Run, lo: real, hi: real, j: nat)
    requires RunLoop(cfg, Start(rate), inputs) == Returned(run) && |run.outputs| == |inputs|
    requires forall i :: 0 <= i < |Readings(inputs, run.outputs)| ==> lo <= Readings(inputs, run.outputs)[i].mean <= hi
    requires j < |Readings(inputs, run.outputs)|
    ensures lo <= Readings(inputs, run.outputs)[j].smoothed <= hi
  {
    hide RunLoop, Readings, Ewma.PushAll;
    RunTracks(cfg, rate, inputs, run);
    var readings := Readings(inputs, run.outputs);
    var upTo := readings[..j + 1];
    forall i | 0 <= i < |upTo| ensures lo <= PushesOf(upTo)[i].value <= hi {
      assert upTo[i] == readings[i];
    }
    Ewma.StateInHull(Start(rate).ewma, PushesOf(upTo), lo, hi);
    assert upTo[j] == readings[j];
    assert readings[j].smoothed == Ewma.PushAll(Start(rate).ewma, PushesOf(upTo)).state;
  }

  // ----- and what the regression makes of it

  lemma RiseOf(a: real, b: real, t: real, t': real, lag: real, x: real, y: real)
    ensures (a + b * t' - lag + y) - (a + b * t - lag + x) - b * (t' - t) == y - x
  {
  }

  lemma NoisyRise(s: real, s': real, m: real, m': real, rise: real, rest: real, noise: real)
    requires Abs(s - m) <= noise && Abs(s' - m') <= noise && Abs(m' - m - rise) <= rest
    ensures Abs((s' - s) - rise) <= rest + 2.0 * noise
  {
  }

  lemma RampApart(t: nat, t': nat, i: nat, j: nat, k: nat, a: real, b: real, gap: nat, alpha: real)
    requires 0.0 < alpha <= 1.0 && k <= i && k <= j
    ensures Abs(RampAt(t', j, a, b, gap, alpha) - RampAt(t, i, a, b, gap, alpha) - b * (t' as real - t as real))
            <= Rest(b, gap, alpha, k)
  {
    hide Ewma.Lag, Ewma.Decay;
    var lag := Ewma.Lag(alpha, b * gap as real);
    Ewma.DecayRange(lag, 1.0 - alpha, k, i, j);
    var x, y := Ewma.Decay(lag, 1.0 - alpha, i), Ewma.Decay(lag, 1.0 - alpha, j);
    RiseOf(a, b, t as real, t' as real, lag, x, y);
    assert RampAt(t', j, a, b, gap, alpha) - RampAt(t, i, a, b, gap, alpha) - b * (t' as real - t as real) == y - x;
  }

  /** Two readings of the ramp rise by its slope, up to the rest and the noise. */
  lemma RampRise(p: Reading, q: Reading, i: nat, j: nat, k: nat, a: real, b: real, gap: nat, alpha: real, noise: real)
    requires 0.0 < alpha <= 1.0 && k <= i && k <= j
    requires SmoothedRamp(p, i, a, b, gap, alpha, noise) && SmoothedRamp(q, j, a, b, gap, alpha, noise)
    ensures Abs((q.smoothed - p.smoothed) - b * (q.ts as real - p.ts as real)) <= Rest(b, gap, alpha, k) + 2.0 * noise
  {
    RampApart(p.ts, q.ts, i, j, k, a, b, gap, alpha);
    hide RampAt, Rest;
    NoisyRise(p.smoothed, q.smoothed, RampAt(p.ts, i, a, b, gap, alpha), RampAt(q.ts, j, a, b, gap, alpha),
              b * (q.ts as real - p.ts as real), Rest(b, gap, alpha, k), noise);
  }

  lemma TruncatedRiseNear(rise: real, s: real, s': real, o: real, o': real, rest: real)
    requires Abs((s' - s) - rise) <= rest && -1.0 < o - s < 1.0 && -1.0 < o' - s' < 1.0
    ensures rise - (rest + 2.0) <= o' - o <= rise + (rest + 2.0)
  {
  }

  lemma TruncatedPairNear(p: Reading, q: Reading, b: real, gap: nat, rest: real, w: real)
    requires gap > 0 && q.ts >= p.ts + gap && rest >= 0.0 && w * gap as real == rest + 2.0
    requires Abs((q.smoothed - p.smoothed) - b * (q.ts as real - p.ts as real)) <= rest
    requires -1.0 < ToI64(p.smoothed) as real - p.smoothed < 1.0 && -1.0 < ToI64(q.smoothed) as real - q.smoothed < 1.0
    ensures b - w <= PairSlope(Point(p.ts, ToI64(p.smoothed)), Point(q.ts, ToI64(q.smoothed))) <= b + w
  {
    hide ToI64;
    var d, o, o' := q.ts as real - p.ts as real, ToI64(p.smoothed) as real, ToI64(q.smoothed) as real;
    TruncatedRiseNear(b * d, p.smoothed, q.smoothed, o, o', rest);
    QuotientNear(b, d, o' - o, gap as real, rest + 2.0, w);
  }

  /** The entries of the ring add their truncation to that. */
  lemma RampPair(p: Reading, q: Reading, i: nat, j: nat, k: nat,
                 a: real, b: real, gap: nat, alpha: real, noise: real, w: real)
    requires 0.0 < alpha <= 1.0 && gap > 0 && k <= i && k <= j && q.ts >= p.ts + gap && noise >= 0.0
    requires SmoothedRamp(p, i, a, b, gap, alpha, noise) && SmoothedRamp(q, j, a, b, gap, alpha, noise)
    requires InI64(p.smoothed) && InI64(q.smoothed)
    requires w * gap as real == Rest(b, gap, alpha, k) + 2.0 * noise + 2.0
    ensures b - w <= PairSlope(Point(p.ts, ToI64(p.smoothed)), Point(q.ts, ToI64(q.smoothed))) <= b + w
  {
    RampRise(p, q, i, j, k, a, b, gap, alpha, noise);
    ToI64Error(p.smoothed);
    ToI64Error(q.smoothed);
    hide ToI64, Rest, SmoothedRamp, Abs;
    TruncatedPairNear(p, q, b, gap, Rest(b, gap, alpha, k) + 2.0 * noise, w);
  }

  ghost predicate InI64(x: real) {
    I64_MIN as real <= x <= I64_MAX as real
  }

  lemma SmoothedInI64(cfg: FilterCfg, rate: real, inputs: seq<Inputs>, run: Run, j: nat)
    requires RunLoop(cfg, Start(rate), inputs) == Returned(run) && |run.outputs| == |inputs|
    requires forall i :: 0 <= i < |Readings(inputs, run.outputs)| ==> InI64(Readings(inputs, run.outputs)[i].mean)
    requires j < |Readings(inputs, run.outputs)|
    ensures InI64(Readings(inputs, run.outputs)[j].smoothed)
  {
    hide RunLoop, Readings;
    SmoothedInRange(cfg, rate, inputs, run, I64_MIN as real, I64_MAX as real, j);
  }

  /** What is left, at reading k, of the lag that still has to build up. */
  function Rest(b: real, gap: nat, alpha: real, k: nat): (r: real)
    requires alpha > 0.0
    ensures r >= 0.0
  {
    Abs(Ewma.Decay(Ewma.Lag(alpha, b * gap as real), 1.0 - alpha, k))
  }

  /** How far the estimate can be from the slope of the ramp. */
  function Spread(rest: real, gap: nat): real
    requires gap > 0
  {
    (rest + 2.0) / gap as real
  }

  /** The index of the oldest of n pushes still in the ring. */
  function Oldest(n: nat): nat {
    if n > RING_CAPACITY then n - RING_CAPACITY else 0
  }

  lemma RampRing(readings: seq<Reading>, ring: seq<Point>, k: nat,
                 a: real, b: real, gap: nat, weight: real, alpha: real, noise: real)
    requires 0.0 < alpha <= 1.0 && gap > 0 && noise >= 0.0 && MeansRamp(readings, a, b, gap, weight, noise)
    requires |readings| == k + |ring| && |ring| >= 3
    requires forall j :: 0 <= j < |readings| ==>
               InI64(readings[j].smoothed) && SmoothedRamp(readings[j], j, a, b, gap, alpha, noise)
    requires forall j :: 0 <= j < |ring| ==> ring[j] == Point(readings[k + j].ts, ToI64(readings[k + j].smoothed))
    ensures Abs(Slope(ring) - b) <= Spread(Rest(b, gap, alpha, k) + 2.0 * noise, gap)
  {
    hide Slope, PairSlope, SmoothedRamp, Den, Rest, ToI64, InI64, Spread, MeansRamp;
    var w := Spread(Rest(b, gap, alpha, k) + 2.0 * noise, gap);
    SpreadTimes(Rest(b, gap, alpha, k) + 2.0 * noise, gap);
    forall i, j | 0 <= i < j < |ring| && ring[i].t != ring[j].t ensures b - w <= PairSlope(ring[i], ring[j]) <= b + w {
      Apart(readings, a, b, gap, weight, noise, k + i, k + j);
      RampPair(readings[k + i], readings[k + j], k + i, k + j, k, a, b, gap, alpha, noise, w);
    }
    Apart(readings, a, b, gap, weight, noise, k, k + 1);
    RingSlope(ring, b, w);
  }

  lemma SpreadTimes(rest: real, gap: nat)
    requires gap > 0
    ensures Spread(rest, gap) * gap as real == rest + 2.0
  {
  }

  lemma RingSlope(ring: seq<Point>, b: real, w: real)
    requires |ring| >= 2 && ring[0].t != ring[1].t && SlopesWithin(ring, b - w, b + w)
    ensures Abs(Slope(ring) - b) <= w
  {
    hide Slope, SlopesWithin, Den;
    DenVanishes(ring);
    SlopeAmongPairSlopes(ring, b - w, b + w);
  }

  lemma Apart(readings: seq<Reading>, a: real, b: real, gap: nat, weight: real, noise: real, i: nat, j: nat)
    requires MeansRamp(readings, a, b, gap, weight, noise) && i < j < |readings|
    ensures readings[j].ts >= readings[i].ts + gap
  {
    assert j * gap >= (i + 1) * gap;
  }

  lemma AlphaAtMostOne(rate: real, weight: real)
    ensures Ewma.Alpha(rate, weight) <= 1.0
  {
  }

  lemma ThousandFold(x: real, y: real, e: real)
    requires Abs(x - y) <= e
    ensures Abs(1000.0 * x - 1000.0 * y) <= 1000.0 * e
  {
  }

  lemma OldestStarts(pushes: seq<Point>, j: nat)
    requires j < |LastOnes(pushes, RING_CAPACITY)|
    ensures |pushes| == Oldest(|pushes|) + |LastOnes(pushes, RING_CAPACITY)|
    ensures LastOnes(pushes, RING_CAPACITY)[j] == pushes[Oldest(|pushes|) + j]
  {
  }

  lemma RingReadings(inputs: seq<Inputs>, outputs: seq<Output>)
    requires |inputs| == |outputs|
    ensures var readings, ring := Readings(inputs, outputs), LastOnes(Pushes(inputs, outputs), RING_CAPACITY);
            var k := Oldest(|readings|);
            && |readings| == k + |ring|
            && forall j :: 0 <= j < |ring| ==> ring[j] == Point(readings[k + j].ts, ToI64(readings[k + j].smoothed))
  {
    hide Pushes, Readings, ToI64;
    PushesAreReadings(inputs, outputs);
    var ring := LastOnes(Pushes(inputs, outputs), RING_CAPACITY);
    forall j | 0 <= j < |ring| ensures ring[j] == Pushes(inputs, outputs)[Oldest(|Pushes(inputs, outputs)|) + j] {
      OldestStarts(Pushes(inputs, outputs), j);
    }
  }

  /** From the fused means to the reported drift: when they follow a + b t up to some noise, at
      constant spacing g and weight, every reported drift is within 1000 (rest + 2 noise + 2) / g
      of 1000 b, where the rest is what the oldest entry of the ring still lacks of the lag, and
      decays by 1 - alpha with every fusion. */
  lemma DriftFollowsRamp(cfg: FilterCfg, rate: real, inputs: seq<Inputs>, run: Run,
                         a: real, b: real, gap: nat, weight: real, noise: real)
    requires RunLoop(cfg, Start(rate), inputs) == Returned(run) && |run.outputs| == |inputs| && LastDrift(run).Some?
    requires gap > 0 && noise >= 0.0 && MeansRamp(Readings(inputs, run.outputs), a, b, gap, weight, noise)
    requires forall j :: 0 <= j < |Readings(inputs, run.outputs)| ==> InI64(Readings(inputs, run.outputs)[j].mean)
    requires Ewma.Alpha(Clamp01(rate), weight) > 0.0
    ensures var k := Oldest(|Readings(inputs, run.outputs)|);
            Abs(LastDrift(run).value - 1000.0 * b) <=
            1000.0 * Spread(Rest(b, gap, Ewma.Alpha(Clamp01(rate), weight), k) + 2.0 * noise, gap)
  {
    hide RunLoop, Readings, Pushes, Slope, LastDrift, MeansRamp, SmoothedRamp, Rest, Ewma.Alpha, InI64, ToI64,
      LastOnes, Oldest, Abs, Clamp01, Spread;
    var alpha := Ewma.Alpha(Clamp01(rate), weight);
    AlphaAtMostOne(Clamp01(rate), weight);
    LastDriftIsRegression(cfg, rate, inputs, run);
    var readings := Readings(inputs, run.outputs);
    var ring := LastOnes(Pushes(inputs, run.outputs), RING_CAPACITY);
    forall j | 0 <= j < |readings|
      ensures InI64(readings[j].smoothed) && SmoothedRamp(readings[j], j, a, b, gap, alpha, noise)
    {
      SmoothedFollowsRamp(cfg, rate, inputs, run, a, b, gap, weight, noise, j);
      SmoothedInI64(cfg, rate, inputs, run, j);
    }
    var k := Oldest(|readings|);
    RingReadings(inputs, run.outputs);
    RampRing(readings, ring, k, a, b, gap, weight, alpha, noise);
    ThousandFold(Slope(ring), b, Spread(Rest(b, gap, alpha, k) + 2.0 * noise, gap));
  }
}
