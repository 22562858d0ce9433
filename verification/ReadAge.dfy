/** How old the values are that the fusion loop reads.  Samples are stamped by the hardware clock
    (src/net/node.rs lines 286 and 310, src/net/ntp.rs lines 194 and 211) and trimmed by that
    clock, while the query bound of line 383 of src/net/node.rs comes from the system clock. */
module ReadAge {
  import opened Numeric
  import opened Store

  /** The i-th add was made at the global time `made[i]`, read on a clock ahead by `phc`, and
      asks for trimming by the window. */
  ghost predicate Stamped(adds: seq<Add>, made: seq<int>, phc: int, window: nat) {
    && |made| == |adds|
    && forall i :: 0 <= i < |adds| ==>
         adds[i].ts == made[i] + phc && adds[i].ts < U64_SPACE && adds[i].window == window
  }

  /** Rounding a 64-bit timestamp to a score moves it by at most `u`: 128 ns for the present
      day, 1024 ns at the end of the range. */
  ghost predicate RoundsBy(fl: Floats, u: nat) {
    forall n: nat :: n < U64_SPACE ==> Abs(fl.round(n) - n as real) <= u as real
  }

  /** The bound of a query at the global time `now`, read on a clock ahead by `sys`. */
  function Since(now: int, sys: int, window: nat): nat
    requires 0 <= now + sys
  {
    Monus(now + sys, window)
  }

  /** No value is older when read than the window plus the lead of the hardware clock over the
      system clock, plus rounding. */
  lemma ReadIsRecent(fl: Floats, adds: seq<Add>, made: seq<int>, phc: int, sys: int, window: nat, u: nat,
                     now: int, limit: nat, k: nat) returns (i: nat)
    requires Faithful(fl) && AllFloats(fl, adds) && RoundsBy(fl, u) && Stamped(adds, made, phc, window)
    requires 0 <= now + sys < U64_SPACE
    requires k < |SeriesRecent(fl, Trimmed(fl, adds), Since(now, sys, window), limit)|
    ensures i < |adds| && SeriesRecent(fl, Trimmed(fl, adds), Since(now, sys, window), limit)[k] == Stored(fl, adds[i])
    ensures now - made[i] <= window + (phc - sys) + 2 * u
  {
    hide SeriesRecent, Trimmed, Faithful, AllFloats, Stored;
    i := RecentWasAdded(fl, adds, Since(now, sys, window), limit, k);
  }

  /** So when the system clock leads by more than the window, nothing is ever read. */
  lemma NothingReadAhead(fl: Floats, adds: seq<Add>, made: seq<int>, phc: int, sys: int, window: nat, u: nat,
                         now: int, limit: nat)
    requires Faithful(fl) && AllFloats(fl, adds) && RoundsBy(fl, u) && Stamped(adds, made, phc, window)
    requires 0 <= now + sys < U64_SPACE && forall i :: 0 <= i < |made| ==> made[i] <= now
    requires sys - phc > window + 2 * u
    ensures SeriesRecent(fl, Trimmed(fl, adds), Since(now, sys, window), limit) == []
  {
    hide SeriesRecent, Trimmed, Faithful, AllFloats, RoundsBy;
    if |SeriesRecent(fl, Trimmed(fl, adds), Since(now, sys, window), limit)| > 0 {
      var i := ReadIsRecent(fl, adds, made, phc, sys, window, u, now, limit, 0);
    }
  }

  /** The bound lies above every cutoff, so that trimming is invisible, once every add is older
      than the lead of the hardware clock, plus rounding. */
  lemma OldAddsHideTrimming(fl: Floats, adds: seq<Add>, made: seq<int>, phc: int, sys: int, window: nat, u: nat,
                            now: int, limit: nat)
    requires RoundsBy(fl, u) && Stamped(adds, made, phc, window)
    requires 0 <= now + sys < U64_SPACE
    requires forall i :: 0 <= i < |adds| ==> adds[i].ts >= window && now - made[i] > (phc - sys) + 2 * u
    ensures SeriesRecent(fl, Trimmed(fl, adds), Since(now, sys, window), limit)
            == SeriesRecent(fl, Log(fl, adds), Since(now, sys, window), limit)
  {
    hide SeriesRecent, Trimmed, Log;
    TrimmingIsInvisible(fl, adds, Since(now, sys, window), limit);
  }

  /** The exact condition, where rounding plays no part: an add's cutoff reaches the bound if and
      only if the add is no older than the lead of the hardware clock. */
  lemma CutoffReachesBound(fl: Floats, a: Add, made: int, phc: int, sys: int, now: int)
    requires a.ts == made + phc && a.ts >= a.window > 0 && now + sys >= a.window
    requires fl.round(a.ts - a.window) == (a.ts - a.window) as real
    requires fl.round(Since(now, sys, a.window)) == Since(now, sys, a.window) as real
    ensures Trims(fl, a, fl.round(Since(now, sys, a.window))) <==> now - made <= phc - sys
  {
  }
}
