/** The weighted exponential smoother of src/time/fuse.rs, lines 3-45; `rate` is its lambda. */
module Ewma {
  import opened Numeric

  datatype EwmaState = EwmaState(rate: real, state: real, init: bool)

  function Alpha(rate: real, weight: real): real {
    Clamp01(rate * (1.0 + weight / 4.0))
  }

  /** Alpha is lambda (1 + weight / 4) as long as that lies in [0, 1], and the nearer end otherwise. */
  lemma AlphaLaw(rate: real, weight: real)
    ensures 0.0 <= rate * (4.0 + weight) <= 4.0 ==> 4.0 * Alpha(rate, weight) == rate * (4.0 + weight)
    ensures rate * (4.0 + weight) <= 0.0 ==> Alpha(rate, weight) == 0.0
    ensures rate * (4.0 + weight) >= 4.0 ==> Alpha(rate, weight) == 1.0
  {
    assert rate * (1.0 + weight / 4.0) * 4.0 == rate * (4.0 + weight);
  }

  /** A convex combination when alpha is in [0, 1]. */
  function Blend(alpha: real, x: real, y: real): real {
    alpha * x + (1.0 - alpha) * y
  }

  lemma BlendMoves(alpha: real, x: real, y: real)
    ensures 4.0 * (Blend(alpha, x, y) - y) == 4.0 * alpha * (x - y)
    ensures alpha == 0.0 ==> Blend(alpha, x, y) == y
    ensures alpha == 1.0 ==> Blend(alpha, x, y) == x
  {
  }

  function Smooth(e: EwmaState, value: real, weight: real): EwmaState {
    var alpha := Alpha(e.rate, weight);
    if !e.init then e.(state := value, init := true)
    else e.(state := Blend(alpha, value, e.state))
  }

  /** From `last` the fraction lambda (1 + w / 4), none or all if that lies outside [0, 1], of
      the way to the value. */
  ghost predicate Moves(smoothed: real, last: real, value: real, rate: real, w: real) {
    var quarters := rate * (4.0 + w);
    var share := if quarters < 0.0 then 0.0 else if quarters < 4.0 then quarters else 4.0;
    4.0 * (smoothed - last) == share * (value - last)
  }

  class WeightedEwma {
    var rate: real
    var state: real
    var init: bool

    function View(): EwmaState
      reads this
    {
      EwmaState(rate, state, init)
    }

    constructor (rate: real)
      ensures View() == EwmaState(Clamp01(rate), 0.0, false)
    {
      this.rate := Clamp01(rate);
      this.state := 0.0;
      this.init := false;
    }

    method Push(value: real, weight: real) returns (smoothed: real)
      modifies `state, `init
      ensures View() == Smooth(old(View()), value, weight)
      ensures smoothed == state && init
      ensures if old(init) then Moves(state, old(state), value, rate, weight) else state == value
    {
      var alpha := Clamp01(rate * (1.0 + weight / 4.0));
      AlphaLaw(rate, weight);
      ghost var before := state;
      if !init {
        state := value;
        init := true;
      } else {
        state := alpha * value + (1.0 - alpha) * state;
      }
      smoothed := state;
      BlendMoves(alpha, value, before);
    }
  }

  // ----- runs

  datatype Sample = Sample(value: real, weight: real)

  function PushAll(e: EwmaState, pushes: seq<Sample>): EwmaState {
    if |pushes| == 0 then e
    else
      var last := pushes[|pushes| - 1];
      Smooth(PushAll(e, pushes[..|pushes| - 1]), last.value, last.weight)
  }

  lemma AlphaBounds(rate: real, weight: real)
    requires 0.0 <= rate <= 1.0 && weight >= 0.0
    ensures rate <= Alpha(rate, weight) <= 1.0
  {
    ProductNonNegative(rate, weight / 4.0);
  }

  /** The weight raises alpha from lambda at zero, by lambda for every four, until it saturates. */
  lemma AlphaSaturates(rate: real, weight: real)
    requires 0.0 <= rate <= 1.0 && weight >= 0.0
    ensures weight == 0.0 ==> Alpha(rate, weight) == rate
    ensures rate * (4.0 + weight) <= 4.0 ==> 4.0 * Alpha(rate, weight) == rate * (4.0 + weight)
    ensures Alpha(rate, weight) == 1.0 <==> rate * (4.0 + weight) >= 4.0
  {
    AlphaLaw(rate, weight);
    ProductNonNegative(rate, 4.0 + weight);
    hide Alpha;
    if weight == 0.0 { assert rate * (4.0 + weight) == 4.0 * rate; }
  }

  lemma Convex(alpha: real, x: real, y: real, lo: real, hi: real)
    requires 0.0 <= alpha <= 1.0 && lo <= x <= hi && lo <= y <= hi
    ensures lo <= Blend(alpha, x, y) <= hi
  {
    ProductNonNegative(alpha, x - lo);
    ProductNonNegative(alpha, hi - x);
    ProductNonNegative(1.0 - alpha, y - lo);
    ProductNonNegative(1.0 - alpha, hi - y);
  }

  /** One push keeps the state in any interval that holds the value and, once initialised,
      the previous state.  Alpha is clamped, so this needs nothing of lambda or the weight. */
  lemma PushInHull(e: EwmaState, value: real, weight: real, lo: real, hi: real)
    requires lo <= value <= hi && (e.init ==> lo <= e.state <= hi)
    ensures Smooth(e, value, weight).init && lo <= Smooth(e, value, weight).state <= hi
  {
    if e.init {
      Convex(Alpha(e.rate, weight), value, e.state, lo, hi);
    }
  }

  /** Safety over every run: the state stays in the hull of the pushed values. */
  lemma {:induction false} StateInHull(e: EwmaState, pushes: seq<Sample>, lo: real, hi: real)
    requires !e.init && |pushes| > 0
    requires forall i :: 0 <= i < |pushes| ==> lo <= pushes[i].value <= hi
    ensures PushAll(e, pushes).init && lo <= PushAll(e, pushes).state <= hi
  {
    var last := pushes[|pushes| - 1];
    var before := pushes[..|pushes| - 1];
    if |before| > 0 {
      StateInHull(e, before, lo, hi);
    }
    PushInHull(PushAll(e, before), last.value, last.weight, lo, hi);
  }

  /** gap * x^j. */
  function Decay(gap: real, x: real, j: nat): real {
    if j == 0 then gap else x * Decay(gap, x, j - 1)
  }

  lemma BlendShift(alpha: real, x: real, y: real, c: real)
    ensures Blend(alpha, x + c, y + c) == Blend(alpha, x, y) + c
  {
    assert alpha * (x + c) == alpha * x + alpha * c;
    assert (1.0 - alpha) * (y + c) == (1.0 - alpha) * y + (1.0 - alpha) * c;
  }

  lemma BlendMonotone(alpha: real, x: real, y: real, x': real, y': real)
    requires 0.0 <= alpha <= 1.0 && x <= x' && y <= y'
    ensures Blend(alpha, x, y) <= Blend(alpha, x', y')
  {
    ProductNonNegative(alpha, x' - x);
    ProductNonNegative(1.0 - alpha, y' - y);
  }

  lemma BlendSlack(alpha: real, rate: real, gap: real)
    requires rate <= alpha && 0.0 <= gap
    ensures Blend(alpha, 0.0, gap) <= (1.0 - rate) * gap
    ensures Blend(alpha, 0.0, -gap) == -Blend(alpha, 0.0, gap)
  {
    ProductNonNegative(alpha - rate, gap);
  }

  /** One step: the part of the error above e shrinks by at least the factor 1 - lambda. */
  lemma BlendContracts(alpha: real, rate: real, x: real, y: real, c: real, e: real, bound: real)
    requires 0.0 <= rate <= alpha <= 1.0 && 0.0 <= bound
    requires Abs(x - c) <= e && Abs(y - c) <= e + bound
    ensures Abs(Blend(alpha, x, y) - c) <= e + (1.0 - rate) * bound
  {
    hide Blend;
    BlendSlack(alpha, rate, bound);
    BlendShift(alpha, 0.0, bound, c + e);
    BlendShift(alpha, 0.0, -bound, c - e);
    BlendMonotone(alpha, x, y, 0.0 + (c + e), bound + (c + e));
    BlendMonotone(alpha, 0.0 + (c - e), -bound + (c - e), x, y);
  }

  lemma {:induction false} DecayNonNegative(gap: real, x: real, j: nat)
    requires 0.0 <= gap && 0.0 <= x
    ensures 0.0 <= Decay(gap, x, j)
  {
    if j > 0 {
      DecayNonNegative(gap, x, j - 1);
      ProductNonNegative(x, Decay(gap, x, j - 1));
    }
  }

  lemma {:induction false} PushAllKeeps(s: EwmaState, pushes: seq<Sample>)
    ensures PushAll(s, pushes).rate == s.rate
    ensures s.init || |pushes| > 0 ==> PushAll(s, pushes).init
  {
    if |pushes| > 0 {
      PushAllKeeps(s, pushes[..|pushes| - 1]);
    }
  }

  ghost predicate ErrorWithin(s: EwmaState, c: real, bound: real) {
    Abs(s.state - c) <= bound
  }

  lemma ErrorStep(s: EwmaState, s': EwmaState, push: Sample, c: real, e: real, gap: real, j: nat)
    requires s.init && 0.0 <= s.rate <= 1.0 && s' == Smooth(s, push.value, push.weight)
    requires Abs(push.value - c) <= e && push.weight >= 0.0 && gap >= 0.0
    requires ErrorWithin(s, c, e + Decay(gap, 1.0 - s.rate, j))
    ensures ErrorWithin(s', c, e + Decay(gap, 1.0 - s.rate, j + 1))
  {
    hide Blend, Alpha;
    DecayNonNegative(gap, 1.0 - s.rate, j);
    AlphaBounds(s.rate, push.weight);
    BlendContracts(Alpha(s.rate, push.weight), s.rate, push.value, s.state, c, e, Decay(gap, 1.0 - s.rate, j));
  }

  /** Convergence over runs: while the pushes stay within e of c, the error after j more
      pushes is at most e plus (1 - lambda)^j times the earlier error. */
  lemma {:induction false} ErrorDecays(s: EwmaState, pushes: seq<Sample>, c: real, e: real)
    requires s.init && 0.0 <= s.rate <= 1.0 && e >= 0.0
    requires forall i :: 0 <= i < |pushes| ==> Abs(pushes[i].value - c) <= e && pushes[i].weight >= 0.0
    ensures ErrorWithin(PushAll(s, pushes), c, e + Decay(Abs(s.state - c), 1.0 - s.rate, |pushes|))
  {
    if |pushes| > 0 {
      var before, last := pushes[..|pushes| - 1], pushes[|pushes| - 1];
      hide Smooth, Decay;
      ErrorDecays(s, before, c, e);
      PushAllKeeps(s, before);
      ErrorStep(PushAll(s, before), PushAll(s, pushes), last, c, e, Abs(s.state - c), |before|);
    }
  }

  /** What is left of an initial error: the product of the factors 1 - alpha. */
  function Retained(rate: real, pushes: seq<Sample>): real {
    if |pushes| == 0 then 1.0
    else Product(1.0 - Alpha(rate, pushes[|pushes| - 1].weight), Retained(rate, pushes[..|pushes| - 1]))
  }

  lemma BlendFixed(alpha: real, c: real, y: real, kept: real, gap: real)
    requires y - c == Product(kept, gap)
    ensures Blend(alpha, c, y) - c == Product(Product(1.0 - alpha, kept), gap)
  {
    assert Blend(alpha, c, y) - c == (1.0 - alpha) * (y - c);
    assert (1.0 - alpha) * (kept * gap) == (1.0 - alpha) * kept * gap;
  }

  /** The exact error under constant input, whatever the weights. */
  lemma {:induction false} ErrorExact(s: EwmaState, pushes: seq<Sample>, c: real)
    requires s.init && forall i :: 0 <= i < |pushes| ==> pushes[i].value == c
    ensures PushAll(s, pushes).state - c == Product(Retained(s.rate, pushes), s.state - c)
  {
    if |pushes| > 0 {
      hide Blend, Alpha, Product;
      var before, last := pushes[..|pushes| - 1], pushes[|pushes| - 1];
      ErrorExact(s, before, c);
      PushAllKeeps(s, before);
      BlendFixed(Alpha(s.rate, last.weight), c, PushAll(s, before).state, Retained(s.rate, before), s.state - c);
    }
  }

  // ----- the effect of noise

  lemma BlendClose(alpha: real, x: real, y: real, x': real, y': real, bound: real)
    requires 0.0 <= alpha <= 1.0 && Abs(x - x') <= bound && Abs(y - y') <= bound
    ensures Abs(Blend(alpha, x, y) - Blend(alpha, x', y')) <= bound
  {
    Convex(alpha, x - x', y - y', -bound, bound);
    assert Blend(alpha, x - x', y - y') == Blend(alpha, x, y) - Blend(alpha, x', y');
  }

  /** Smoothing moves the state by at most the largest change of a value. */
  lemma {:induction false} StatesClose(e: EwmaState, a: seq<Sample>, b: seq<Sample>, bound: real)
    requires !e.init && |a| == |b| > 0
    requires forall i :: 0 <= i < |a| ==> a[i].weight == b[i].weight && Abs(a[i].value - b[i].value) <= bound
    ensures Abs(PushAll(e, a).state - PushAll(e, b).state) <= bound
  {
    hide Blend;
    var init, init', n := a[..|a| - 1], b[..|b| - 1], |a| - 1;
    PushAllKeeps(e, init);
    PushAllKeeps(e, init');
    if n > 0 {
      StatesClose(e, init, init', bound);
      BlendClose(Alpha(e.rate, a[n].weight), a[n].value, PushAll(e, init).state,
                 b[n].value, PushAll(e, init').state, bound);
    }
  }

  // ----- following a ramp

  /** Constant weight, values rising by `rise` with every push. */
  ghost predicate Ramp(pushes: seq<Sample>, first: real, rise: real, weight: real) {
    forall i :: 0 <= i < |pushes| ==> pushes[i] == Sample(first + Product(i as real, rise), weight)
  }

  /** How far the state stays behind a ramp. */
  function Lag(alpha: real, rise: real): real
    requires alpha > 0.0
  {
    rise * (1.0 - alpha) / alpha
  }

  lemma LagStep(alpha: real, x: real, rise: real, rest: real)
    requires alpha > 0.0
    ensures Blend(alpha, x + rise, x - Lag(alpha, rise) + rest) == x + rise - Lag(alpha, rise) + (1.0 - alpha) * rest
  {
    var lag := Lag(alpha, rise);
    assert lag * alpha == rise * (1.0 - alpha);
    assert (1.0 - alpha) * (x - lag + rest) == (1.0 - alpha) * x - (1.0 - alpha) * lag + (1.0 - alpha) * rest;
  }

  lemma RampStep(i: real, first: real, rise: real)
    ensures first + Product(i + 1.0, rise) == first + Product(i, rise) + rise
    ensures first + Product(0.0, rise) == first
  {
  }

  /** On a ramp the state is exactly the last value, minus the lag, plus what is left of the lag
      that the first value did not have. */
  lemma {:induction false} RampFollowed(e: EwmaState, pushes: seq<Sample>, first: real, rise: real, weight: real)
    requires !e.init && |pushes| > 0 && Ramp(pushes, first, rise, weight) && Alpha(e.rate, weight) > 0.0
    ensures var alpha := Alpha(e.rate, weight);
            PushAll(e, pushes).state ==
            pushes[|pushes| - 1].value - Lag(alpha, rise) + Decay(Lag(alpha, rise), 1.0 - alpha, |pushes| - 1)
  {
    hide Blend, Alpha, Lag, Product;
    var before, n := pushes[..|pushes| - 1], |pushes| - 1;
    if n > 0 {
      var alpha := Alpha(e.rate, weight);
      RampFollowed(e, before, first, rise, weight);
      PushAllKeeps(e, before);
      RampStep((n - 1) as real, first, rise);
      LagStep(alpha, before[n - 1].value, rise, Decay(Lag(alpha, rise), 1.0 - alpha, n - 1));
    }
  }

  lemma {:induction false} DecayNegates(gap: real, x: real, j: nat)
    ensures Decay(-gap, x, j) == -Decay(gap, x, j)
  {
    if j > 0 {
      DecayNegates(gap, x, j - 1);
    }
  }

  lemma {:induction false} DecayFalls(gap: real, x: real, i: nat, j: nat)
    requires 0.0 <= gap && 0.0 <= x <= 1.0 && i <= j
    ensures 0.0 <= Decay(gap, x, j) <= Decay(gap, x, i)
  {
    DecayNonNegative(gap, x, j);
    if i < j {
      DecayFalls(gap, x, i, j - 1);
      ProductNonNegative(1.0 - x, Decay(gap, x, j - 1));
    }
  }

  /** From index i on, two values of a decay differ by at most its size at i. */
  lemma DecayRange(gap: real, x: real, i: nat, p: nat, q: nat)
    requires 0.0 <= x <= 1.0 && i <= p && i <= q
    ensures Abs(Decay(gap, x, q) - Decay(gap, x, p)) <= Abs(Decay(gap, x, i))
  {
    hide Decay;
    var g := Abs(gap);
    DecayFalls(g, x, i, p);
    DecayFalls(g, x, i, q);
    if gap < 0.0 {
      DecayNegates(gap, x, i);
      DecayNegates(gap, x, p);
      DecayNegates(gap, x, q);
    }
  }

  /** Shifting every value by c shifts the state by c. */
  lemma PushTranslates(e: EwmaState, e': EwmaState, value: real, weight: real, c: real)
    requires e'.rate == e.rate && e'.init == e.init && (e.init ==> e'.state == e.state + c)
    ensures Smooth(e', value + c, weight).state == Smooth(e, value, weight).state + c
  {
    hide Blend, Alpha;
    BlendShift(Alpha(e.rate, weight), value, e.state, c);
  }
}
