/** `percentile` and `add_quantile_series` of src/telemetry/metrics.rs: interpolation
    between order statistics, and its agreement with the median used for fusion. */
module Percentile {
  import opened Wrappers
  import opened Numeric
  import opened StableSort
  import opened RobustMedian

  function Position(n: nat, q: real): real
    requires n > 0
  {
    Clamp01(q) * ((n - 1) as real)
  }

  /** The point a fraction `frac` of the way from `a` to `b`. */
  function Mix(a: real, b: real, frac: real): real {
    a + (b - a) * frac
  }

  /** Linear interpolation at a fractional position of a non-empty sequence. */
  function Interpolate(sorted: seq<real>, pos: real): real
    requires |sorted| > 0
  {
    var idx := FloorToNat(pos);
    var frac := pos - idx as real;
    if idx + 1 < |sorted| then Mix(sorted[idx], sorted[idx + 1], frac)
    else sorted[|sorted| - 1]
  }

  function Percentile(sorted: seq<real>, q: real): Option<real> {
    if |sorted| == 0 then None else Some(Interpolate(sorted, Position(|sorted|, q)))
  }

  lemma PositionBounds(n: nat, q: real)
    requires n > 0
    ensures 0.0 <= Position(n, q) <= (n - 1) as real
  {
    var c, m := Clamp01(q), (n - 1) as real;
    ProductNonNegative(c, m);
    ProductNonNegative(1.0 - c, m);
  }

  lemma PositionMonotone(n: nat, q: real, q': real)
    requires n > 0 && q <= q'
    ensures Position(n, q) <= Position(n, q')
  {
    ProductNonNegative(Clamp01(q') - Clamp01(q), (n - 1) as real);
  }

  lemma MixMonotone(a: real, b: real, frac: real, frac': real)
    requires a <= b && frac <= frac'
    ensures Mix(a, b, frac) <= Mix(a, b, frac')
  {
    ProductNonNegative(b - a, frac' - frac);
  }

  /** An interpolated value lies between the two order statistics around its position. */
  lemma InterpolateBracket(sorted: seq<real>, pos: real)
    requires |sorted| > 0 && SortedBy(Value, sorted)
    requires 0.0 <= pos <= (|sorted| - 1) as real
    ensures pos.Floor < |sorted|
    ensures sorted[pos.Floor] <= Interpolate(sorted, pos)
    ensures Interpolate(sorted, pos) <= sorted[if pos.Floor + 1 < |sorted| then pos.Floor + 1 else pos.Floor]
  {
    var idx := pos.Floor;
    if idx + 1 < |sorted| {
      assert Value(sorted[idx]) <= Value(sorted[idx + 1]);
      MixMonotone(sorted[idx], sorted[idx + 1], 0.0, pos - idx as real);
      MixMonotone(sorted[idx], sorted[idx + 1], pos - idx as real, 1.0);
    }
  }

  lemma InterpolateMonotone(sorted: seq<real>, pos: real, pos': real)
    requires |sorted| > 0 && SortedBy(Value, sorted)
    requires 0.0 <= pos <= pos' <= (|sorted| - 1) as real
    ensures Interpolate(sorted, pos) <= Interpolate(sorted, pos')
  {
    InterpolateBracket(sorted, pos);
    InterpolateBracket(sorted, pos');
    var i, j := pos.Floor, pos'.Floor;
    if i < j {
      assert Value(sorted[i + 1]) <= Value(sorted[j]);
    } else if i + 1 < |sorted| {
      assert Value(sorted[i]) <= Value(sorted[i + 1]);
      MixMonotone(sorted[i], sorted[i + 1], pos - i as real, pos' - i as real);
    }
  }

  /** Percentiles grow with q, within and across interpolation segments. */
  lemma PercentileMonotone(sorted: seq<real>, q: real, q': real)
    requires |sorted| > 0 && SortedBy(Value, sorted) && q <= q'
    ensures Percentile(sorted, q).value <= Percentile(sorted, q').value
  {
    PositionBounds(|sorted|, q);
    PositionBounds(|sorted|, q');
    PositionMonotone(|sorted|, q, q');
    InterpolateMonotone(sorted, Position(|sorted|, q), Position(|sorted|, q'));
  }

  /** The range of percentiles is [min, max], reached at 0 and 1. */
  lemma PercentileRange(sorted: seq<real>, q: real)
    requires |sorted| > 0 && SortedBy(Value, sorted)
    ensures Percentile(sorted, 0.0).value == sorted[0]
    ensures Percentile(sorted, 1.0).value == sorted[|sorted| - 1]
    ensures sorted[0] <= Percentile(sorted, q).value <= sorted[|sorted| - 1]
  {
    var last := (|sorted| - 1) as real;
    assert Position(|sorted|, 0.0) == 0.0 && Position(|sorted|, 1.0) == last;
    PositionBounds(|sorted|, q);
    InterpolateMonotone(sorted, 0.0, Position(|sorted|, q));
    InterpolateMonotone(sorted, Position(|sorted|, q), last);
    InterpolateBracket(sorted, 0.0);
  }

  /** Between neighbouring ranks the percentile is the straight line through the two order
      statistics; at a rank it is the order statistic. */
  lemma PercentileInterpolates(sorted: seq<real>, i: nat, f: real, q: real)
    requires i + 1 < |sorted| && 0.0 <= f < 1.0 && 0.0 <= q <= 1.0
    requires q * (|sorted| - 1) as real == i as real + f
    ensures Percentile(sorted, q) == Some((1.0 - f) * sorted[i] + f * sorted[i + 1])
  {
    var pos := Position(|sorted|, q);
    assert pos == i as real + f && FloorToNat(pos) == i;
    hide Position;
    assert Mix(sorted[i], sorted[i + 1], f) == (1.0 - f) * sorted[i] + f * sorted[i + 1];
  }

  lemma HalfPosition(n: nat)
    requires n > 0
    ensures n % 2 == 1 ==> Position(n, 0.5) == (n / 2) as real
    ensures n % 2 == 0 ==> Position(n, 0.5) == (n / 2 - 1) as real + 0.5
  {
    assert n == 2 * (n / 2) + n % 2;
  }

  /** The exported "0.50" quantile is the median that fusion computes. */
  lemma HalfPercentileIsMedian(sorted: seq<real>)
    requires SortedBy(Value, sorted)
    ensures Percentile(sorted, 0.5) == Median(sorted)
  {
    StableSortCharacterised(Value, sorted, sorted);
    assert Sorted(sorted) == sorted;
    if |sorted| > 0 {
      var mid := |sorted| / 2;
      var pos := Position(|sorted|, 0.5);
      HalfPosition(|sorted|);
      hide Position, SortBy;
      if |sorted| % 2 == 0 {
        assert FloorToNat(pos) == mid - 1;
        assert Interpolate(sorted, pos) == Mix(sorted[mid - 1], sorted[mid], 0.5);
      } else {
        assert FloorToNat(pos) == mid;
        assert Interpolate(sorted, pos) == sorted[mid];
      }
    }
  }

  datatype Line = Line(metric: string, quantile: string, value: real)

  const PROM_QUANTILES: seq<(real, string)> := [(0.5, "0.50"), (0.95, "0.95")]

  function QuantileLine(metric: string, values: seq<real>, entry: (real, string)): Line
    requires |values| > 0
  {
    Line(metric, entry.1, Percentile(values, entry.0).value)
  }

  ghost function ExportedLines(metric: string, samples: seq<real>): seq<Line>
    requires |samples| > 0
  {
    [QuantileLine(metric, Sorted(samples), PROM_QUANTILES[0]), QuantileLine(metric, Sorted(samples), PROM_QUANTILES[1])]
  }

  /** Appends one line per exported quantile to the page, in order, and nothing for an empty series. */
  method AddQuantileSeries(body: seq<Line>, metric: string, samples: seq<real>) returns (body': seq<Line>)
    ensures body' == body + if |samples| == 0 then [] else ExportedLines(metric, samples)
  {
    body' := body;
    if |samples| == 0 {
      return;
    }
    var values := Sorted(samples);
    ghost var lines := ExportedLines(metric, samples);
    for i := 0 to |PROM_QUANTILES|
      invariant body' == body + lines[..i]
    {
      var line := QuantileLine(metric, values, PROM_QUANTILES[i]);
      assert line == lines[i];
      body' := body' + [line];
    }
  }

  /** Two lines are exported: the first carries the median of the unsorted samples, the second
      the 0.95 percentile of the sorted ones. */
  lemma FirstLineIsMedian(metric: string, samples: seq<real>)
    requires |samples| > 0
    ensures |ExportedLines(metric, samples)| == 2
    ensures ExportedLines(metric, samples)[0] == Line(metric, "0.50", Median(samples).value)
    ensures ExportedLines(metric, samples)[1] == Line(metric, "0.95", Percentile(Sorted(samples), 0.95).value)
  {
    SortSorted(Value, samples);
    HalfPercentileIsMedian(Sorted(samples));
    StableSortCharacterised(Value, Sorted(samples), Sorted(samples));
  }
}
