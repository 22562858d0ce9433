/** The four-timestamp equations of src/time/calc.rs (section 8 of RFC 5905), and what they
    say about the clocks of the two ends. */
module TimeCalc {
  import opened Numeric

  datatype PairCalc = PairCalc(delay: int, offset: int)

  function ComputeOffsetDelay(t1: int, t2: int, t3: int, t4: int): PairCalc {
    PairCalc((t4 - t1) - (t3 - t2), HalveTowardZero((t2 - t1) + (t3 - t4)))
  }

  /** A request and its reply in global time: sent at g1, received at g2, answered at g3,
      received at g4, between a local clock ahead of global time by `local` and a remote
      clock ahead by `remote`. */
  datatype Exchange = Exchange(g1: int, g2: int, g3: int, g4: int, local: int, remote: int) {
    predicate Causal() { g1 <= g2 <= g3 <= g4 }

    function TrueOffset(): int { remote - local }

    function PathDelay(): int { (g2 - g1) + (g4 - g3) }

    function Calc(): PairCalc {
      ComputeOffsetDelay(g1 + local, g2 + remote, g3 + remote, g4 + local)
    }
  }

  /** The delay is exactly the time spent on the wire, and the offset is off by at most half
      of it, plus the rounding of the halving. */
  lemma ExchangeAccuracy(x: Exchange)
    requires x.Causal()
    ensures x.Calc().delay == x.PathDelay() >= 0
    ensures -x.Calc().delay - 1 <= 2 * x.Calc().offset - 2 * x.TrueOffset() <= x.Calc().delay + 1
  {
  }

  /** The error is the asymmetry of the two paths, halved, and the halving rounds toward zero. */
  lemma ErrorIsAsymmetry(x: Exchange)
    ensures var asymmetry := (x.g2 - x.g1) - (x.g4 - x.g3);
            && -1 <= 2 * x.Calc().offset - (2 * x.TrueOffset() + asymmetry) <= 1
            && (asymmetry % 2 == 0 ==> 2 * x.Calc().offset == 2 * x.TrueOffset() + asymmetry)
            && (2 * x.TrueOffset() + asymmetry >= 0 ==> 0 <= 2 * x.Calc().offset <= 2 * x.TrueOffset() + asymmetry)
            && (2 * x.TrueOffset() + asymmetry <= 0 ==> 2 * x.TrueOffset() + asymmetry <= 2 * x.Calc().offset <= 0)
  {
  }

  /** The exchange x shows these four timestamps. */
  predicate Shows(x: Exchange, t1: int, t2: int, t3: int, t4: int) {
    x.g1 + x.local == t1 && x.g2 + x.remote == t2 && x.g3 + x.remote == t3 && x.g4 + x.local == t4
  }

  /** A causal exchange shows the timestamps and has the true offset o. */
  ghost predicate Consistent(t1: int, t2: int, t3: int, t4: int, o: int) {
    exists x: Exchange :: x.Causal() && Shows(x, t1, t2, t3, t4) && x.TrueOffset() == o
  }

  /** What any four timestamps reveal: exactly the true offsets between t3 - t4 and t2 - t1 are
      consistent with them, provided the server answers after it receives. */
  lemma AsymmetryIsInvisible(t1: int, t2: int, t3: int, t4: int, o: int)
    ensures Consistent(t1, t2, t3, t4, o) <==> t2 <= t3 && t3 - t4 <= o <= t2 - t1
  {
    if t2 <= t3 && t3 - t4 <= o <= t2 - t1 {
      var x := Exchange(t1, t2 - o, t3 - o, t4, 0, o);
      assert x.Causal() && Shows(x, t1, t2, t3, t4) && x.TrueOffset() == o;
    }
  }

  /** That interval is as wide as the computed delay and the computed offset is its middle, up
      to rounding: no other estimate has a smaller worst error. */
  lemma OffsetIsTheMiddle(t1: int, t2: int, t3: int, t4: int, guess: int)
    requires t2 <= t3 && t3 - t4 <= t2 - t1
    ensures var c := ComputeOffsetDelay(t1, t2, t3, t4);
            && c.delay == (t2 - t1) - (t3 - t4)
            && -1 <= 2 * c.offset - ((t2 - t1) + (t3 - t4)) <= 1
            && exists o :: Consistent(t1, t2, t3, t4, o) && 2 * (if guess < o then o - guess else guess - o) >= c.delay
  {
    var lo, hi := t3 - t4, t2 - t1;
    AsymmetryIsInvisible(t1, t2, t3, t4, lo);
    AsymmetryIsInvisible(t1, t2, t3, t4, hi);
    assert Consistent(t1, t2, t3, t4, lo) && Consistent(t1, t2, t3, t4, hi);
  }

  /** An estimate within half of d, plus rounding, of the true offset. */
  ghost predicate Near(v: int, trueOffset: int, d: int) {
    -d - 1 <= 2 * v - 2 * trueOffset <= d + 1
  }

  /** Reading t1 up to `a` early shifts both results by at most that much. */
  lemma EarlyOrigin(t1: int, t2: int, t3: int, t4: int, a: int)
    requires 0 <= a <= 1
    ensures var exact, early := ComputeOffsetDelay(t1, t2, t3, t4), ComputeOffsetDelay(t1 - a, t2, t3, t4);
            && early.delay == exact.delay + a
            && 0 <= early.offset - exact.offset <= a
  {
  }
}
