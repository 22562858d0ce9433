/** `linreg_slope_ppm` of src/time/drift.rs: least squares over (timestamp, offset) points. */
module Drift {
  import opened Numeric

  datatype Point = Point(t: nat, o: int)

  function T(p: Point): real { p.t as real }

  function O(p: Point): real { p.o as real }

  function Mean(x: Point -> real, s: seq<Point>): real
    requires |s| > 0
  {
    Sum(x, s) / |s| as real
  }

  /** The sum over the points of (x - mx)(y - my). */
  function Dev(x: Point -> real, y: Point -> real, s: seq<Point>, mx: real, my: real): real {
    if |s| == 0 then 0.0
    else Dev(x, y, s[..|s| - 1], mx, my) + Product(x(s[|s| - 1]) - mx, y(s[|s| - 1]) - my)
  }

  lemma DevNext(x: Point -> real, y: Point -> real, s: seq<Point>, i: nat, mx: real, my: real)
    requires i < |s|
    ensures Dev(x, y, s[..i + 1], mx, my) == Dev(x, y, s[..i], mx, my) + Product(x(s[i]) - mx, y(s[i]) - my)
  {
    hide Product;
    assert s[..i + 1][..i] == s[..i];
  }

  function Num(s: seq<Point>): real
    requires |s| > 0
  {
    Dev(T, O, s, Mean(T, s), Mean(O, s))
  }

  function Den(s: seq<Point>): real
    requires |s| > 0
  {
    Dev(T, T, s, Mean(T, s), Mean(T, s))
  }

  /** Nanoseconds of offset per nanosecond of time. */
  function Slope(s: seq<Point>): real
    requires |s| > 0
  {
    if Den(s) > 0.0 then Num(s) / Den(s) else 0.0
  }

  function LinregSlope(s: seq<Point>): real {
    if |s| < 3 then 0.0 else Slope(s) * 1000.0
  }

  /** The accumulation loop of `linreg_slope_ppm`. */
  method Accumulate(samples: seq<Point>, mt: real, mo: real) returns (num: real, den: real)
    ensures num == Dev(T, O, samples, mt, mo)
    ensures den == Dev(T, T, samples, mt, mt)
  {
    hide Product;
    num, den := 0.0, 0.0;
    for i := 0 to |samples|
      invariant num == Dev(T, O, samples[..i], mt, mo)
      invariant den == Dev(T, T, samples[..i], mt, mt)
    {
      DevNext(T, O, samples, i, mt, mo);
      DevNext(T, T, samples, i, mt, mt);
      var dt := T(samples[i]) - mt;
      num := num + Product(dt, O(samples[i]) - mo);
      den := den + Square(dt);
    }
    assert samples[..|samples|] == samples;
  }

  method LinregSlopePpm(samples: seq<Point>) returns (ppm: real)
    ensures ppm == LinregSlope(samples)
    ensures ppm == if |samples| < 3 then 0.0 else 1000.0 * Slope(samples)
  {
    if |samples| < 3 {
      return 0.0;
    }
    var mt, mo := Mean(T, samples), Mean(O, samples);
    var num, den := Accumulate(samples, mt, mo);
    var slope := if den > 0.0 then num / den else 0.0;
    ppm := slope * 1000.0;
  }

  // ----- optimality

  function Residual(p: Point, a: real, b: real): real {
    O(p) - a - b * T(p)
  }

  function SquaredResidual(p: Point, a: real, b: real): real {
    Square(Residual(p, a, b))
  }

  /** The residual sum of squares of the line o = a + b t. */
  function Rss(s: seq<Point>, a: real, b: real): real {
    if |s| == 0 then 0.0
    else Rss(s[..|s| - 1], a, b) + SquaredResidual(s[|s| - 1], a, b)
  }

  /** The moments of a point set about a centre: its size, the sums of e*e, d*e, d*d, e and d. */
  datatype Moments = Moments(n: real, ee: real, de: real, dd: real, e: real, d: real)

  ghost function AddDeviation(m: Moments, d: real, e: real): Moments {
    Moments(m.n + 1.0, m.ee + Square(e), m.de + Product(d, e), m.dd + Square(d), m.e + e, m.d + d)
  }

  ghost function MomentsOf(s: seq<Point>, mt: real, mo: real): Moments {
    if |s| == 0 then Moments(0.0, 0.0, 0.0, 0.0, 0.0, 0.0)
    else AddDeviation(MomentsOf(s[..|s| - 1], mt, mo), T(s[|s| - 1]) - mt, O(s[|s| - 1]) - mo)
  }

  /** The sum over the points of x - m. */
  function Offsets(x: Point -> real, s: seq<Point>, m: real): real {
    if |s| == 0 then 0.0 else Offsets(x, s[..|s| - 1], m) + (x(s[|s| - 1]) - m)
  }

  lemma {:induction false} MomentsAreSums(s: seq<Point>, mt: real, mo: real)
    ensures MomentsOf(s, mt, mo).de == Dev(T, O, s, mt, mo)
    ensures MomentsOf(s, mt, mo).dd == Dev(T, T, s, mt, mt)
    ensures MomentsOf(s, mt, mo).n == |s| as real
    ensures MomentsOf(s, mt, mo).e == Offsets(O, s, mo)
    ensures MomentsOf(s, mt, mo).d == Offsets(T, s, mt)
  {
    hide Product;
    if |s| > 0 {
      MomentsAreSums(s[..|s| - 1], mt, mo);
    }
  }

  /** Residual sum of squares of a line of slope b whose residual at the centre is c. */
  ghost function Expansion(m: Moments, b: real, c: real): real {
    m.ee - 2.0 * b * m.de + b * b * m.dd + 2.0 * c * (m.e - b * m.d) + m.n * c * c
  }

  ghost function SquaredGap(d: real, e: real, b: real, c: real): real {
    Square(e - b * d + c)
  }

  lemma ExpandGap(d: real, e: real, b: real, c: real)
    ensures SquaredGap(d, e, b, c) ==
        Square(e) - 2.0 * b * Product(d, e) + b * b * Square(d) + 2.0 * c * (e - b * d) + c * c
  {
    assert (e - b * d + c) * (e - b * d + c)
        == e * e - 2.0 * b * (d * e) + b * b * (d * d) + 2.0 * c * (e - b * d) + c * c;
  }

  lemma ExpansionStep(m: Moments, b: real, c: real, d: real, e: real)
    ensures Expansion(AddDeviation(m, d, e), b, c) == Expansion(m, b, c) + SquaredGap(d, e, b, c)
  {
    ExpandGap(d, e, b, c);
    hide SquaredGap, Square, Product;
    assert b * b * (m.dd + Square(d)) == b * b * m.dd + b * b * Square(d);
    assert 2.0 * c * (m.e + e - b * (m.d + d)) == 2.0 * c * (m.e - b * m.d) + 2.0 * c * (e - b * d);
    assert (m.n + 1.0) * c * c == m.n * c * c + c * c;
  }

  /** The residual of the line at the centre. */
  ghost function AtCentre(a: real, b: real, mt: real, mo: real): real {
    mo - a - b * mt
  }

  lemma ResidualAbout(p: Point, a: real, b: real, mt: real, mo: real)
    ensures Residual(p, a, b) == (O(p) - mo) - b * (T(p) - mt) + AtCentre(a, b, mt, mo)
  {
    assert b * (T(p) - mt) == b * T(p) - b * mt;
  }

  lemma SquaredResidualAbout(p: Point, a: real, b: real, mt: real, mo: real)
    ensures SquaredResidual(p, a, b) == SquaredGap(T(p) - mt, O(p) - mo, b, AtCentre(a, b, mt, mo))
  {
    hide Square, Residual;
    ResidualAbout(p, a, b, mt, mo);
  }

  lemma RssStep(rss: real, rss': real, m: Moments, m': Moments, p: Point, a: real, b: real, mt: real, mo: real)
    requires rss == Expansion(m, b, AtCentre(a, b, mt, mo))
    requires rss' == rss + SquaredResidual(p, a, b)
    requires m' == AddDeviation(m, T(p) - mt, O(p) - mo)
    ensures rss' == Expansion(m', b, AtCentre(a, b, mt, mo))
  {
    hide SquaredResidual, SquaredGap, Expansion, AddDeviation;
    SquaredResidualAbout(p, a, b, mt, mo);
    ExpansionStep(m, b, AtCentre(a, b, mt, mo), T(p) - mt, O(p) - mo);
  }

  ghost predicate RssIs(s: seq<Point>, a: real, b: real, mt: real, mo: real) {
    Rss(s, a, b) == Expansion(MomentsOf(s, mt, mo), b, AtCentre(a, b, mt, mo))
  }

  lemma RssOfNone(s: seq<Point>, a: real, b: real, mt: real, mo: real)
    requires |s| == 0
    ensures RssIs(s, a, b, mt, mo)
  {
  }

  lemma RssOfMore(s: seq<Point>, a: real, b: real, mt: real, mo: real)
    requires |s| > 0 && RssIs(s[..|s| - 1], a, b, mt, mo)
    ensures RssIs(s, a, b, mt, mo)
  {
    hide Expansion, AddDeviation, SquaredResidual;
    var init := s[..|s| - 1];
    RssStep(Rss(init, a, b), Rss(s, a, b), MomentsOf(init, mt, mo), MomentsOf(s, mt, mo), s[|s| - 1], a, b, mt, mo);
  }

  lemma {:induction false} RssExpansion(s: seq<Point>, a: real, b: real, mt: real, mo: real)
    ensures RssIs(s, a, b, mt, mo)
  {
    hide RssIs;
    if |s| > 0 {
      RssExpansion(s[..|s| - 1], a, b, mt, mo);
      RssOfMore(s, a, b, mt, mo);
    } else {
      RssOfNone(s, a, b, mt, mo);
    }
  }

  // ----- the centre of mass as centre

  function Scaled(k: nat, m: real): real {
    k as real * m
  }

  lemma ScaledNext(k: nat, m: real)
    ensures Scaled(k + 1, m) == Scaled(k, m) + m
  {
  }

  lemma QuotientTimes(x: real, n: real)
    requires n != 0.0
    ensures n * (x / n) == x
  {
  }

  lemma {:induction false} OffsetsAreSums(x: Point -> real, s: seq<Point>, m: real)
    ensures Offsets(x, s, m) == Sum(x, s) - Scaled(|s|, m)
  {
    hide Scaled;
    if |s| > 0 {
      OffsetsAreSums(x, s[..|s| - 1], m);
      ScaledNext(|s| - 1, m);
    } else {
      ScaledZero(m);
    }
  }

  lemma ScaledZero(m: real)
    ensures Scaled(0, m) == 0.0
  {
  }

  lemma ScaledMean(x: Point -> real, s: seq<Point>)
    requires |s| > 0
    ensures Scaled(|s|, Mean(x, s)) == Sum(x, s)
  {
    hide Sum;
    QuotientTimes(Sum(x, s), |s| as real);
  }

  lemma OffsetsFromMean(x: Point -> real, s: seq<Point>)
    requires |s| > 0
    ensures Offsets(x, s, Mean(x, s)) == 0.0
  {
    hide Mean, Sum, Scaled, Offsets;
    OffsetsAreSums(x, s, Mean(x, s));
    ScaledMean(x, s);
  }

  lemma AddDeviationSpread(m: Moments, d: real, e: real)
    requires m.dd >= 0.0
    ensures AddDeviation(m, d, e).dd >= m.dd
    ensures AddDeviation(m, d, e).dd == m.dd ==> d == 0.0
  {
    hide Product, Square;
    SquareSign(d);
  }

  lemma {:induction false} SpreadNonNegative(s: seq<Point>, mt: real, mo: real)
    ensures MomentsOf(s, mt, mo).dd >= 0.0
  {
    if |s| > 0 {
      SpreadNonNegative(s[..|s| - 1], mt, mo);
      AddDeviationSpread(MomentsOf(s[..|s| - 1], mt, mo), T(s[|s| - 1]) - mt, O(s[|s| - 1]) - mo);
    }
  }

  ghost function Central(s: seq<Point>): Moments
    requires |s| > 0
  {
    MomentsOf(s, Mean(T, s), Mean(O, s))
  }

  lemma CentralMoments(s: seq<Point>)
    requires |s| > 0
    ensures Central(s).e == 0.0 && Central(s).d == 0.0 && Central(s).n == |s| as real
    ensures Central(s).de == Num(s) && Central(s).dd == Den(s) >= 0.0
  {
    hide Mean, MomentsOf, Offsets, Dev;
    SpreadNonNegative(s, Mean(T, s), Mean(O, s));
    MomentsAreSums(s, Mean(T, s), Mean(O, s));
    OffsetsFromMean(O, s);
    OffsetsFromMean(T, s);
  }

  lemma {:induction false} NoSpread(s: seq<Point>, mt: real, mo: real)
    requires MomentsOf(s, mt, mo).dd == 0.0
    ensures MomentsOf(s, mt, mo).de == 0.0
    ensures forall i :: 0 <= i < |s| ==> T(s[i]) == mt
  {
    if |s| > 0 {
      SpreadNonNegative(s[..|s| - 1], mt, mo);
      AddDeviationSpread(MomentsOf(s[..|s| - 1], mt, mo), T(s[|s| - 1]) - mt, O(s[|s| - 1]) - mo);
      NoSpread(s[..|s| - 1], mt, mo);
    }
  }

  lemma SlopeTimesDen(s: seq<Point>)
    requires |s| > 0
    ensures Num(s) == Slope(s) * Den(s)
  {
    CentralMoments(s);
    if Den(s) == 0.0 {
      NoSpread(s, Mean(T, s), Mean(O, s));
    } else {
      QuotientTimes(Num(s), Den(s));
    }
  }

  /** The intercept of the line of the fitted slope through the centre of mass. */
  function Intercept(s: seq<Point>): real
    requires |s| > 0
  {
    Mean(O, s) - Slope(s) * Mean(T, s)
  }

  ghost function Excess(m: Moments, b: real, slope: real, c: real): real {
    Product(m.dd, Square(b - slope)) + Product(m.n, Square(c))
  }

  lemma ExpansionGap(m: Moments, b: real, slope: real, c: real)
    requires m.e == 0.0 && m.d == 0.0 && m.de == slope * m.dd
    ensures Expansion(m, b, c) == Expansion(m, slope, 0.0) + Excess(m, b, slope, c)
  {
    assert m.dd * ((b - slope) * (b - slope)) == b * b * m.dd - 2.0 * b * (slope * m.dd) + slope * slope * m.dd;
    assert slope * (slope * m.dd) == slope * slope * m.dd;
    assert m.n * c * c == m.n * (c * c);
  }

  lemma OwnCentre(s: seq<Point>)
    requires |s| > 0
    ensures AtCentre(Intercept(s), Slope(s), Mean(T, s), Mean(O, s)) == 0.0
  {
    hide Slope, Mean;
  }

  /** How much worse the line a + b t fits than the regression line: exactly this much. */
  lemma FitDecomposition(s: seq<Point>, a: real, b: real)
    requires |s| > 0
    ensures Rss(s, a, b) == Rss(s, Intercept(s), Slope(s))
                          + Excess(Central(s), b, Slope(s), AtCentre(a, b, Mean(T, s), Mean(O, s)))
  {
    hide Excess, Expansion, MomentsOf, Slope, Num, Den, Rss, AtCentre, Mean, Intercept;
    OwnCentre(s);
    CentralMoments(s);
    SlopeTimesDen(s);
    RssExpansion(s, a, b, Mean(T, s), Mean(O, s));
    RssExpansion(s, Intercept(s), Slope(s), Mean(T, s), Mean(O, s));
    ExpansionGap(Central(s), b, Slope(s), AtCentre(a, b, Mean(T, s), Mean(O, s)));
  }

  lemma ExcessSign(m: Moments, b: real, slope: real, c: real)
    requires m.dd >= 0.0 && m.n > 0.0
    ensures Excess(m, b, slope, c) >= 0.0
    ensures Excess(m, b, slope, c) == 0.0 && m.dd > 0.0 ==> b == slope && c == 0.0
  {
    hide Product, Square;
    SquareSign(b - slope);
    SquareSign(c);
    ProductSign(m.dd, Square(b - slope));
    ProductSign(m.n, Square(c));
  }

  /** Least squares: no line fits better, and once the timestamps differ no other line
      fits as well. */
  lemma LeastSquares(s: seq<Point>, a: real, b: real)
    requires |s| > 0
    ensures Rss(s, Intercept(s), Slope(s)) <= Rss(s, a, b)
    ensures Den(s) > 0.0 && Rss(s, a, b) == Rss(s, Intercept(s), Slope(s)) ==> b == Slope(s) && a == Intercept(s)
  {
    FitDecomposition(s, a, b);
    CentralMoments(s);
    ExcessSign(Central(s), b, Slope(s), AtCentre(a, b, Mean(T, s), Mean(O, s)));
  }

  lemma TimesAtMean(s: seq<Point>)
    requires |s| > 0 && Den(s) == 0.0
    ensures forall i :: 0 <= i < |s| ==> T(s[i]) == Mean(T, s)
  {
    CentralMoments(s);
    hide Mean, Den, MomentsOf;
    NoSpread(s, Mean(T, s), Mean(O, s));
  }

  ghost predicate AllTimesEqual(s: seq<Point>) {
    forall i, j :: 0 <= i < |s| && 0 <= j < |s| ==> s[i].t == s[j].t
  }

  /** The denominator is never negative, and vanishes exactly when all timestamps agree. */
  lemma DenVanishes(s: seq<Point>)
    requires |s| > 0
    ensures 0.0 <= Den(s)
    ensures Den(s) == 0.0 <==> AllTimesEqual(s)
  {
    CentralMoments(s);
    hide Den, Mean, MomentsOf;
    if Den(s) == 0.0 {
      TimesAtMean(s);
      forall i, j | 0 <= i < |s| && 0 <= j < |s| ensures s[i].t == s[j].t {
        assert T(s[i]) == T(s[j]);
      }
    } else if AllTimesEqual(s) {
      forall i | 0 <= i < |s| ensures T(s[i]) == T(s[0]) {
        assert s[i].t == s[0].t;
      }
      SameTimes(s, T(s[0]));
      assert false;
    }
  }

  lemma {:induction false} OffsetsOfSame(s: seq<Point>, t: real, m: real)
    requires forall i :: 0 <= i < |s| ==> T(s[i]) == t
    ensures Offsets(T, s, m) == Scaled(|s|, t - m)
    ensures t == m ==> Dev(T, T, s, m, m) == 0.0
  {
    hide Scaled;
    if |s| > 0 {
      OffsetsOfSame(s[..|s| - 1], t, m);
      ScaledNext(|s| - 1, t - m);
    } else {
      ScaledZero(t - m);
    }
  }

  lemma ScaledVanishes(k: nat, m: real)
    requires k > 0 && Scaled(k, m) == 0.0
    ensures m == 0.0
  {
  }

  lemma SameTimes(s: seq<Point>, t: real)
    requires |s| > 0 && forall i :: 0 <= i < |s| ==> T(s[i]) == t
    ensures Den(s) == 0.0
  {
    hide Mean, Scaled, Offsets, Dev;
    OffsetsFromMean(T, s);
    OffsetsOfSame(s, t, Mean(T, s));
    ScaledVanishes(|s|, t - Mean(T, s));
  }

  // ----- the slope as an average over pairs

  /** The sum over the earlier points p of (x(q) - x(p)) (y(q) - y(p)). */
  function Cross(x: Point -> real, y: Point -> real, s: seq<Point>, q: Point): real {
    if |s| == 0 then 0.0
    else Cross(x, y, s[..|s| - 1], q) + Product(x(q) - x(s[|s| - 1]), y(q) - y(s[|s| - 1]))
  }

  /** The sum over all pairs i < j of (x_j - x_i) (y_j - y_i). */
  function PairSum(x: Point -> real, y: Point -> real, s: seq<Point>): real {
    if |s| == 0 then 0.0
    else PairSum(x, y, s[..|s| - 1]) + Cross(x, y, s[..|s| - 1], s[|s| - 1])
  }

  ghost function CrossExpanded(n: real, dx: real, dy: real, sx: real, sy: real, dev: real): real {
    n * Product(dx, dy) - dx * sy - dy * sx + dev
  }

  lemma CrossStep(n: real, dx: real, dy: real, sx: real, sy: real, dev: real, u: real, v: real)
    ensures CrossExpanded(n + 1.0, dx, dy, sx + u, sy + v, dev + Product(u, v))
         == CrossExpanded(n, dx, dy, sx, sy, dev) + Product(dx - u, dy - v)
  {
    assert (dx - u) * (dy - v) == dx * dy - dx * v - u * dy + u * v;
    assert (n + 1.0) * (dx * dy) == n * (dx * dy) + dx * dy;
    assert dx * (sy + v) == dx * sy + dx * v;
    assert dy * (sx + u) == dy * sx + dy * u;
  }

  lemma CrossNone(dx: real, dy: real)
    ensures CrossExpanded(0.0, dx, dy, 0.0, 0.0, 0.0) == 0.0
  {
  }

  lemma {:induction false} CrossExpansion(x: Point -> real, y: Point -> real, s: seq<Point>, q: Point, mx: real,
      my: real)
    ensures Cross(x, y, s, q)
         == CrossExpanded(|s| as real, x(q) - mx, y(q) - my, Offsets(x, s, mx), Offsets(y, s, my), Dev(x, y, s, mx, my))
  {
    hide CrossExpanded, Product;
    if |s| == 0 {
      CrossNone(x(q) - mx, y(q) - my);
    } else {
      var init, p := s[..|s| - 1], s[|s| - 1];
      CrossExpansion(x, y, init, q, mx, my);
      CrossStep(|init| as real, x(q) - mx, y(q) - my, Offsets(x, init, mx), Offsets(y, init, my),
                Dev(x, y, init, mx, my), x(p) - mx, y(p) - my);
      assert (x(q) - mx) - (x(p) - mx) == x(q) - x(p) && (y(q) - my) - (y(p) - my) == y(q) - y(p);
    }
  }

  ghost function Lagrange(n: real, dev: real, sx: real, sy: real): real {
    n * dev - sx * sy
  }

  lemma LagrangeStep(n: real, dev: real, sx: real, sy: real, dx: real, dy: real)
    ensures Lagrange(n + 1.0, dev + Product(dx, dy), sx + dx, sy + dy)
         == Lagrange(n, dev, sx, sy) + CrossExpanded(n, dx, dy, sx, sy, dev)
  {
    assert (n + 1.0) * (dev + dx * dy) == n * dev + n * (dx * dy) + dev + dx * dy;
    assert (sx + dx) * (sy + dy) == sx * sy + sx * dy + dx * sy + dx * dy;
  }

  lemma {:induction false} PairIdentity(x: Point -> real, y: Point -> real, s: seq<Point>, mx: real, my: real)
    ensures PairSum(x, y, s) == Lagrange(|s| as real, Dev(x, y, s, mx, my), Offsets(x, s, mx), Offsets(y, s, my))
  {
    hide CrossExpanded, Product;
    if |s| > 0 {
      var init, p := s[..|s| - 1], s[|s| - 1];
      PairIdentity(x, y, init, mx, my);
      CrossExpansion(x, y, init, p, mx, my);
      LagrangeStep(|init| as real, Dev(x, y, init, mx, my), Offsets(x, init, mx), Offsets(y, init, my),
                   x(p) - mx, y(p) - my);
      hide Lagrange;
    }
  }

  /** n * num and n * den are the sums over all pairs of points. */
  lemma SumsOverPairs(s: seq<Point>)
    requires |s| > 0
    ensures Scaled(|s|, Num(s)) == PairSum(T, O, s)
    ensures Scaled(|s|, Den(s)) == PairSum(T, T, s)
  {
    hide Mean, Dev, Offsets, PairSum;
    PairIdentity(T, O, s, Mean(T, s), Mean(O, s));
    PairIdentity(T, T, s, Mean(T, s), Mean(T, s));
    OffsetsFromMean(O, s);
    OffsetsFromMean(T, s);
  }

  /** The slope between two points with different timestamps. */
  function PairSlope(p: Point, q: Point): real
    requires p.t != q.t
  {
    (O(q) - O(p)) / (T(q) - T(p))
  }

  ghost predicate SlopesWithin(s: seq<Point>, lo: real, hi: real) {
    forall i, j :: 0 <= i < j < |s| && s[i].t != s[j].t ==> lo <= PairSlope(s[i], s[j]) <= hi
  }

  lemma BandOfQuotient(lo: real, hi: real, d: real, e: real, quotient: real)
    requires d != 0.0 && quotient * d == e && lo <= quotient <= hi
    ensures Band(lo, hi, Square(d), Product(d, e))
  {
    SquareSign(d);
    var w := Square(d);
    assert quotient * w == Product(d, e) by {
      assert quotient * (d * d) == d * (quotient * d);
    }
    hide Square, Product;
    ProductNonNegative(quotient - lo, w);
    ProductNonNegative(hi - quotient, w);
  }

  /** A pair with equal timestamps contributes nothing, whatever its offsets. */
  lemma PairInBand(p: Point, q: Point, lo: real, hi: real)
    requires p.t != q.t ==> lo <= PairSlope(p, q) <= hi
    ensures Band(lo, hi, Product(T(q) - T(p), T(q) - T(p)), Product(T(q) - T(p), O(q) - O(p)))
  {
    var d, e := T(q) - T(p), O(q) - O(p);
    if p.t == q.t {
      assert d == 0.0;
      BandZero(lo, hi);
    } else {
      QuotientTimes(e, d);
      BandOfQuotient(lo, hi, d, e, PairSlope(p, q));
    }
  }

  lemma {:induction false} CrossInBand(s: seq<Point>, q: Point, lo: real, hi: real)
    requires forall i :: 0 <= i < |s| && s[i].t != q.t ==> lo <= PairSlope(s[i], q) <= hi
    ensures Band(lo, hi, Cross(T, T, s, q), Cross(T, O, s, q))
  {
    hide Band, Product, PairSlope;
    if |s| == 0 {
      BandZero(lo, hi);
    } else {
      var init, p := s[..|s| - 1], s[|s| - 1];
      CrossInBand(init, q, lo, hi);
      PairInBand(p, q, lo, hi);
      BandSum(lo, hi, Cross(T, T, init, q), Cross(T, O, init, q),
              Product(T(q) - T(p), T(q) - T(p)), Product(T(q) - T(p), O(q) - O(p)));
    }
  }

  lemma {:induction false} PairsInBand(s: seq<Point>, lo: real, hi: real)
    requires SlopesWithin(s, lo, hi)
    ensures Band(lo, hi, PairSum(T, T, s), PairSum(T, O, s))
  {
    hide Band, Cross, PairSlope;
    if |s| == 0 {
      BandZero(lo, hi);
    } else {
      var init, p := s[..|s| - 1], s[|s| - 1];
      PairsInBand(init, lo, hi);
      CrossInBand(init, p, lo, hi);
      BandSum(lo, hi, PairSum(T, T, init), PairSum(T, O, init), Cross(T, T, init, p), Cross(T, O, init, p));
    }
  }

  lemma BandUnscaled(lo: real, hi: real, n: nat, den: real, num: real)
    requires n > 0 && Band(lo, hi, Scaled(n, den), Scaled(n, num))
    ensures Band(lo, hi, den, num)
  {
    var k := n as real;
    assert lo * (k * den) == k * (lo * den) && hi * (k * den) == k * (hi * den);
    if num < lo * den {
      ProductPositive(k, lo * den - num);
    } else if num > hi * den {
      ProductPositive(k, num - hi * den);
    }
  }

  /** The regression slope lies among the slopes of the pairs of points with different
      timestamps. */
  lemma SlopeAmongPairSlopes(s: seq<Point>, lo: real, hi: real)
    requires |s| > 0 && SlopesWithin(s, lo, hi) && Den(s) > 0.0
    ensures lo <= Slope(s) <= hi
  {
    hide Band, Num, Den, PairSum, Scaled, SlopesWithin;
    PairsInBand(s, lo, hi);
    SumsOverPairs(s);
    BandUnscaled(lo, hi, |s|, Den(s), Num(s));
    BandQuotient(lo, hi, Den(s), Num(s));
  }

  // ----- offsets in a band

  /** How far the timestamps are spread about m. */
  function TimeSpread(s: seq<Point>, m: real): real {
    if |s| == 0 then 0.0 else TimeSpread(s[..|s| - 1], m) + Abs(T(s[|s| - 1]) - m)
  }

  lemma RecentreStep(dev: real, sum: real, u: real, o: real, my: real, c: real)
    ensures dev + Product(c - my, sum) + Product(u, o - my) == dev + Product(u, o - c) + Product(c - my, sum + u)
  {
  }

  /** Moving the reference of the offsets costs the deviations of the timestamps times the move. */
  lemma {:induction false} Recentre(s: seq<Point>, mt: real, my: real, c: real)
    ensures Dev(T, O, s, mt, my) == Dev(T, O, s, mt, c) + Product(c - my, Offsets(T, s, mt))
  {
    if |s| > 0 {
      var init, p := s[..|s| - 1], s[|s| - 1];
      Recentre(init, mt, my, c);
      hide Product;
      RecentreStep(Dev(T, O, init, mt, c), Offsets(T, init, mt), T(p) - mt, O(p), my, c);
    }
  }

  lemma BoundedProduct(u: real, v: real, h: real)
    requires Abs(v) <= h
    ensures Abs(Product(u, v)) <= Product(h, Abs(u))
  {
    ProductNonNegative(Abs(u), h - v);
    ProductNonNegative(Abs(u), h + v);
  }

  lemma ProductOfSum(h: real, x: real, y: real)
    ensures Product(h, x + y) == Product(h, x) + Product(h, y) && Product(h, 0.0) == 0.0
  {
  }

  ghost predicate OffsetsNear(s: seq<Point>, c: real, h: real) {
    forall i :: 0 <= i < |s| ==> Abs(O(s[i]) - c) <= h
  }

  lemma {:induction false} DevBounded(s: seq<Point>, mt: real, c: real, h: real)
    requires OffsetsNear(s, c, h)
    ensures Abs(Dev(T, O, s, mt, c)) <= Product(h, TimeSpread(s, mt))
  {
    hide Product;
    if |s| == 0 {
      ProductOfSum(h, 0.0, 0.0);
    } else {
      var init, p := s[..|s| - 1], s[|s| - 1];
      DevBounded(init, mt, c, h);
      BoundedProduct(T(p) - mt, O(p) - c, h);
      ProductOfSum(h, TimeSpread(init, mt), Abs(T(p) - mt));
    }
  }

  /** While the offsets stay within h of some value, the slope is at most h times the spread of
      the timestamps over their squared deviations, whatever their spacing and number. */
  lemma SlopeOfBand(s: seq<Point>, c: real, h: real)
    requires |s| > 0 && OffsetsNear(s, c, h)
    ensures Abs(Slope(s) * Den(s)) <= h * TimeSpread(s, Mean(T, s))
  {
    hide Dev, Mean, Offsets, Slope, TimeSpread, OffsetsNear;
    var mt := Mean(T, s);
    SlopeTimesDen(s);
    Recentre(s, mt, Mean(O, s), c);
    OffsetsFromMean(T, s);
    DevBounded(s, mt, c, h);
  }

  // ----- linear drift

  function LineAt(a: real, b: real, p: Point): real {
    a + b * T(p)
  }

  /** The offset is the line's value truncated to an integer. */
  ghost predicate Truncated(a: real, b: real, p: Point) {
    I64_MIN as real <= LineAt(a, b, p) <= I64_MAX as real && p.o == ToI64(LineAt(a, b, p))
  }

  ghost predicate TruncatedLine(s: seq<Point>, a: real, b: real) {
    forall i :: 0 <= i < |s| ==> Truncated(a, b, s[i])
  }

  ghost predicate Spaced(s: seq<Point>, gap: nat) {
    forall i, j :: 0 <= i < j < |s| ==> s[j].t >= s[i].t + gap
  }

  lemma LineRise(a: real, b: real, p: Point, q: Point)
    ensures LineAt(a, b, q) - LineAt(a, b, p) == b * (T(q) - T(p))
  {
  }

  lemma TruncatedRise(a: real, b: real, p: Point, q: Point)
    requires Truncated(a, b, p) && Truncated(a, b, q)
    ensures b * (T(q) - T(p)) - 2.0 <= O(q) - O(p) <= b * (T(q) - T(p)) + 2.0
  {
    LineRise(a, b, p, q);
    hide LineAt, ToI64;
    ToI64Error(LineAt(a, b, p));
    ToI64Error(LineAt(a, b, q));
  }

  lemma QuotientNear(b: real, d: real, e: real, gap: real, slack: real, w: real)
    requires 0.0 < gap <= d && 0.0 <= slack && w * gap == slack && b * d - slack <= e <= b * d + slack
    ensures b - w <= e / d <= b + w
  {
    if w < 0.0 {
      ProductPositive(-w, gap);
      assert false;
    }
    ProductNonNegative(w, d - gap);
    assert (b - w) * d == b * d - w * d && (b + w) * d == b * d + w * d;
    BandQuotient(b - w, b + w, d, e);
  }

  lemma TruncatedPair(a: real, b: real, p: Point, q: Point, gap: nat, w: real)
    requires 0 < gap && q.t >= p.t + gap && Truncated(a, b, p) && Truncated(a, b, q)
    requires w * gap as real == 2.0
    ensures b - w <= PairSlope(p, q) <= b + w
  {
    hide Truncated;
    TruncatedRise(a, b, p, q);
    QuotientNear(b, T(q) - T(p), O(q) - O(p), gap as real, 2.0, w);
  }

  lemma PairSlopesNear(s: seq<Point>, a: real, b: real, gap: nat, w: real)
    requires 0 < gap && Spaced(s, gap) && TruncatedLine(s, a, b)
    requires w * gap as real == 2.0
    ensures SlopesWithin(s, b - w, b + w)
  {
    hide PairSlope, Truncated;
    forall i, j | 0 <= i < j < |s| && s[i].t != s[j].t ensures b - w <= PairSlope(s[i], s[j]) <= b + w {
      TruncatedPair(a, b, s[i], s[j], gap, w);
    }
  }

  /** Storing a linear drift as truncated integers moves the fitted slope by at most two
      units over the smallest spacing of the samples. */
  lemma TruncationError(s: seq<Point>, a: real, b: real, gap: nat)
    requires |s| >= 3 && 0 < gap && Spaced(s, gap) && TruncatedLine(s, a, b)
    ensures b - 2.0 / gap as real <= Slope(s) <= b + 2.0 / gap as real
    ensures LinregSlope(s) == 1000.0 * Slope(s)
  {
    hide SlopesWithin, Slope, Den, TruncatedLine;
    var w := 2.0 / gap as real;
    QuotientTimes(2.0, gap as real);
    PairSlopesNear(s, a, b, gap, w);
    assert s[0].t != s[1].t;
    DenVanishes(s);
    SlopeAmongPairSlopes(s, b - w, b + w);
  }

  /** The factor the poller of src/net/ntp.rs applies to the same ns/ns ratio. */
  function PollerDriftPpm(p: Point, q: Point): real
    requires p.t < q.t
  {
    PairSlope(p, q) * 1000000.0
  }

  /** On offsets that grow exactly linearly the regression is exact, and the figure it
      reports is a thousandth of the poller's parts-per-million figure. */
  lemma ExactLine(s: seq<Point>, b: real, i: nat, j: nat)
    requires |s| >= 3 && i < j < |s| && s[i].t < s[j].t && SlopesWithin(s, b, b)
    ensures Slope(s) == b
    ensures 1000.0 * LinregSlope(s) == PollerDriftPpm(s[i], s[j])
  {
    DenVanishes(s);
    SlopeAmongPairSlopes(s, b, b);
    assert b <= PairSlope(s[i], s[j]) <= b;
  }

  lemma ScaledSign(k: nat, m: real)
    requires k > 0
    ensures Scaled(k, m) == 0.0 <==> m == 0.0
  {
  }

  lemma QuotientVanishes(slope: real, den: real, num: real)
    requires den > 0.0 && slope * den == num
    ensures slope == 0.0 <==> num == 0.0
  {
    if slope > 0.0 {
      ProductPositive(slope, den);
    } else if slope < 0.0 {
      ProductPositive(-slope, den);
    }
  }

  /** The slope vanishes exactly when times and offsets are uncorrelated. */
  lemma SlopeVanishes(s: seq<Point>)
    requires |s| > 0
    ensures Slope(s) == 0.0 <==> PairSum(T, O, s) == 0.0
  {
    hide PairSum, Scaled, Num, Den;
    SumsOverPairs(s);
    ScaledSign(|s|, Num(s));
    SlopeTimesDen(s);
    if Den(s) > 0.0 {
      QuotientVanishes(Slope(s), Den(s), Num(s));
    }
  }

  /** The reported figure is in parts per million if and only if the products of time and
      offset differences, summed over all pairs of points, cancel. */
  lemma ReportedIsPpmOnlyWhenFlat(s: seq<Point>)
    requires |s| >= 3
    ensures LinregSlope(s) == Slope(s) * 1000000.0 <==> PairSum(T, O, s) == 0.0
  {
    hide Slope, PairSum;
    SlopeVanishes(s);
  }

  lemma UnitSlopes(s: seq<Point>)
    requires forall i :: 0 <= i < |s| ==> s[i].o == s[i].t
    ensures SlopesWithin(s, 1.0, 1.0)
  {
    forall i, j | 0 <= i < j < |s| && s[i].t != s[j].t ensures PairSlope(s[i], s[j]) == 1.0 {
      QuotientTimes(T(s[j]) - T(s[i]), T(s[j]) - T(s[i]));
    }
  }

  /** Series on which the figure is wrong: a clock that gains a nanosecond per nanosecond, a
      million parts per million, is reported as a thousand. */
  lemma UnitDriftMisreported(s: seq<Point>)
    requires |s| >= 3 && s[0].t < s[1].t && forall i :: 0 <= i < |s| ==> s[i].o == s[i].t
    ensures Slope(s) == 1.0 && LinregSlope(s) == 1000.0 && PollerDriftPpm(s[0], s[1]) == 1000000.0
  {
    hide Slope, SlopesWithin, PairSlope;
    UnitSlopes(s);
    ExactLine(s, 1.0, 0, 1);
  }
}
