# Zeitpeer: a verified model of the clock-offset pipeline

Zeitpeer estimates the offset of a clock from many peers and claims to be robust against bad
ones.  This Dafny project models the pipeline from the timestamps of one exchange to the
smoothed offset and proves what the pipeline is for.

| file | models |
|---|---|
| `TimeCalc.dfy` | the four-timestamp equations (section 8 of RFC 5905) |
| `NtpCodec.dfy`, `NtpPoll.dfy` | the 64-bit timestamp format (section 6 of RFC 5905), one poll, the poller's state |
| `Jitter.dfy` | first differences of a series of delays |
| `Protocol.dfy` | one node: sequence numbers, pending requests, replies, cleanup |
| `Network.dfy`, `ProtocolSafety.dfy`, `History.dfy`, `SeqWrap.dfy`, `PeerJitter.dfy` | many nodes, some of them faulty, over a network that loses, duplicates, reorders and delays |
| `Trust.dfy`, `Timeouts.dfy` | which faulty nodes a node is safe from; what the response timeout guarantees |
| `Store.dfy` | the sliding-window series over sorted sets |
| `StableSort.dfy`, `RobustMedian.dfy`, `Percentile.dfy` | order statistics |
| `Fusion.dfy`, `Breakdown.dfy`, `FusionLaws.dfy` | selection, trimming, weighted mean; how many faults they stand; symmetries |
| `Ewma.dfy`, `Drift.dfy` | the smoother and the least-squares drift |
| `FusionLoop.dfy`, `RunOutputs.dfy`, `FusionRuns.dfy`, `RunAccuracy.dfy`, `RunDrift.dfy` | the fusion loop over whole runs |
| `ScoreAccuracy.dfy` | what the score that peers are selected by says about accuracy |
| `ReadAge.dfy` | how old the values are that the loop reads |
| `EndToEnd.dfy` | clocks, exchanges, network, NTP, store, fusion loop and drift together |
| `Numeric.dfy`, `Wrappers.dfy` | casts, sums, options |

Where the program changes things step by step (`Node`, `Loop`, `WeightedEwma`, `RedisStore`,
`NtpPoller`, the accumulation and gathering loops, the timestamp buffer) the model is a class or
a loop too, proved equal to a function of the old state; the theorems over whole runs are about
those functions.  `Loop`, `RedisStore` and `NtpPoller` carry the run they have been through as ghost
fields, so that these theorems are about them.

## Assumptions

- 64-bit floats are reals: no rounding, no NaN, so comparisons are total.  Scores of the store
  go through an abstract rounding function; formatting and parsing of floats is a parameter that
  is only required to give back the floats it was given.
- Tasks interleave at their await points; each step of `Network.Step` is atomic.  A node's clock
  differs from global time by a constant.
- A faulty node may send any response under its own id and the ids it claims, from any address, any
  request from its own address and the addresses it spoofs, and any number of them.  A node trusts
  an id when no faulty node may answer under it and none asks in the node's name; `Trust.dfy` shows
  that this is exactly what the code needs.  Series under other ids are arbitrary.
- Node ids are not assumed unique; a peer is honest when every node announcing its id is.
- Integers are unbounded except where the program wraps, saturates or truncates: the 32-bit
  sequence counter, the 64-bit sample counter, `as i64`, `as usize`, the NTP seconds.

## Where code, comments and claims differ

- `src/src/time/drift.rs:15` multiplies a ratio of nanoseconds by 1e3 and calls the result ppm; the
  poller (`src/src/net/ntp.rs:59`) multiplies the same ratio by 1e6.  The model keeps both factors.
- The response timeout is passed to cleanup only (`src/src/net/node.rs:176-182`), which the sender calls
  once per tick; a late response is sampled exactly when it arrives before that (`Timeouts.dfy`).
- The address a response comes from is logged but never checked (`src/src/net/node.rs:288-302`): a node
  that may answer under another's id is believed at the next sequence number (`Trust.dfy`).
- Scores are 64-bit floats (`src/src/store/redis.rs:37`), and Unix nanoseconds of the present day are
  above 2^53: returned timestamps are rounded, and an add just before the bound may be returned.
- Responses carry an echo of t1 that is never compared.  Before the sequence counter wraps the
  comparison would be redundant exactly under the ids the node can trust
  (`Trust.EchoesExactlyWhenTrusted`); under any other id, and under a trusted one after the wrap, there
  are runs in which it would reject a response that the code accepts.
- Samples are stamped and trimmed by the hardware clock (`src/src/net/node.rs:286`,
  `src/src/net/ntp.rs:194`), but the loop asks for them by the system clock (`src/src/net/node.rs:383`);
  `ReadAge.dfy` says what the difference of the two does to what is read.
- A trim ratio of one or more is accepted by the configuration and panics in
  `src/src/time/fuse.rs:85` at the first iteration with a usable source.
- Trimming and querying are both inclusive (`src/src/store/redis.rs:39-58`), so a query whose bound
  equals a cutoff misses an entry that is exactly as old as the window.
- The loop skips every tick while no peer is configured (`src/src/net/node.rs:202-204`), so NTP sources
  alone are never fused (`RunAccuracy.FusedExactlyWhen`).

## Model

| member | source | states |
|---|---|---|
| `EndToEnd.SmoothedOffsetIsAccurate` | src/src/net/node.rs:372-459 | End-to-end accuracy over every run of a network in which faulty nodes send whatever they like: when in every iteration the participants that are not honest number at most t and fewer than k - t (k selected, t trimmed at each end), the loop never panics and every fused mean and every smoothed offset is within (d + 1) / 2 of the true offset. Honest means that fewer than half of the offsets read are anything else than offsets of exchanges, with a peer whose id the node can trust, that took at most d on the wire, or of honest NTP polls over a path of at most d - 2 |
| `EndToEnd.SmoothedOffsetConverges` | src/src/net/node.rs:372-459 | Recovery, whatever the faulty nodes send: from any initialised smoother, under the same per-iteration condition, the error after j fusions is at most (d + 1) / 2 plus (1 - lambda)^j times the error before |
| `EndToEnd.HonestSourceWithin` | src/src/net/node.rs:391-412 | A reliable peer or NTP server of which a minority of the values read is slow, stale or wrong has fewer than half of them outside the band: the robustness of the median, used end to end |
| `EndToEnd.PeerValueWithin` | src/src/net/node.rs:304-332 | In every reachable state, whatever faulty nodes have sent, the recorded offset of an exchange of at most d with a reliable peer is within (d + 1) / 2 of the true offset |
| `EndToEnd.PollValueWithin` | src/src/net/ntp.rs:169-217 | The offset of an honest poll over a path of at most d - 2 is within (d + 1) / 2 of the true offset |
| `EndToEnd.StoredIsMostly` | src/src/store/redis.rs:29-71 | Through the store: a series to which only good values were added reads as mostly good, whatever was trimmed, displaced, cut off or not written |
| `EndToEnd.ScoredOffsetIsAccurate` | src/src/time/fuse.rs:125-141 | End-to-end accuracy from the scores: while in every iteration k participants score at most S and few are not read in full from reliable peers or honest servers, every fused mean and smoothed offset is within (S + slack) / 2 of the true offset, slack 1 for peers and 4 for NTP, with no bound on the delays of the others |
| `EndToEnd.ReportedDriftIsBounded` | src/src/net/node.rs:460-469 | In sound runs the drift the clock would be steered by, times the squared deviations of the ring times, is at most 1000 (d + 3) / 2 times their spread |
| `ScoreAccuracy.ScoreBuysAccuracy` | src/src/time/fuse.rs:74-141 | With k samples of score at most S and at most f whose error exceeds half of their score plus slack, f <= t and f < k - t, the fused mean is within (S + slack) / 2 of the truth |
| `ScoreAccuracy.MeasuredIsNotOverconfident` | src/src/time/fuse.rs:48-70 | A source whose offsets are each within half of their own delay of the truth has its median offset within half of its score, plus slack |
| `ScoreAccuracy.SelectedScores` | src/src/time/fuse.rs:125-137 | When k samples score at most S, nothing worse is selected |
| `RunAccuracy.RunInBand` | src/src/net/node.rs:196-222 | Safety over every run: while every iteration is safe for a band, no iteration panics and all fused means, smoothed offsets and the smoother state lie in the band |
| `RunAccuracy.RunConverges` | src/src/net/node.rs:196-222 | Convergence over runs from any state: error at most e plus (1 - lambda)^j times the earlier error after j fusions |
| `RunAccuracy.SafeMeans` | src/src/net/node.rs:439-449 | One fusion: corrupted participants within the tolerance leave the fused mean in the band, where a source counts as corrupted only if at least half of its offsets are outside |
| `RunAccuracy.ParticipantsAre` | src/src/net/node.rs:387-434 | A source takes part if and only if it has at least max(1, min_samples) recent offsets and is an NTP source or a peer with another id than the node |
| `RunAccuracy.FusedExactlyWhen` | src/src/net/node.rs:200-220 | In every run without a panic an iteration fuses if and only if some peer is configured and some source takes part |
| `RunAccuracy.NtpOnlyIsSkipped` | src/src/net/node.rs:202-204 | The failing configuration: with a usable NTP source and no peer every tick is skipped; with a silent peer added the same source is fused |
| `RunAccuracy.SummaryInBand` | src/src/time/fuse.rs:48-70 | A source with a strict minority of its offsets outside the band has its median inside |
| `RunDrift.DriftFollowsLine` | src/src/net/node.rs:460-469 | When the smoothed offsets follow a line with slope b at spacing at least g, every reported drift is within 2000 / g of 1000 b, for any spacing and weights |
| `RunDrift.DriftFollowsRamp` | src/src/net/node.rs:449-469 | From the fused means to the drift: when they follow a + b t up to some noise, at constant spacing g and weight, every reported drift is within 1000 (rest + 2 noise + 2) / g of 1000 b, where the rest is what the oldest ring entry still lacks of the lag and decays by 1 - alpha per fusion |
| `RunDrift.SmoothedFollowsRamp` | src/src/net/node.rs:449-461 | In such a run every smoothed offset is, up to the same noise, the line minus b g (1 - alpha) / alpha plus (1 - alpha)^j times that shift; exactly so without noise |
| `RunDrift.DriftStaysBounded` | src/src/net/node.rs:460-469 | While every iteration is safe for [lo, hi], every reported drift is at most 1000 (hi - lo + 2) / g in size |
| `RunDrift.DriftOfBand` | src/src/net/node.rs:460-469 | Without any spacing: with the outputs in [lo, hi] the drift times the squared deviations of the ring times is at most 1000 ((hi - lo) / 2 + 1) times their spread |
| `FusionLoop.RingIsLastPushes` | src/src/net/node.rs:460-466 | In every run the ring is exactly the last min(count, 512) pushes; `RunOutputs.DriftReported` says what is reported over it |
| `RunOutputs.DriftReported` | src/src/net/node.rs:460-469 | For every output of every run: a fused output reports a drift if and only if at least three outputs up to it were fused, and the drift is 1000 times the slope through the last 512 of them, or all while they are fewer, each entered with its time and its smoothed offset cast to an integer |
| `RunOutputs.SmoothedMoves` | src/src/net/node.rs:449-449 | For every fused output of every run: the first is the fused mean; any other lies, from the smoothed offset before it, the fraction lambda (1 + total weight / 4), at most all, of the way to the fused mean, however many ticks were skipped in between |
| `RunOutputs.OutputIsFusion` | src/src/net/node.rs:200-448 | An output is fused if and only if a peer is configured and a sample was gathered, and it carries the fusion of exactly what was gathered |
| `FusionLoop.PanicsExactlyWhen` | src/src/time/fuse.rs:82-85 | The loop panics if and only if the configured trim ratio is at least one and some tick with a configured peer finds a usable source |
| `FusionLoop.GatherSamples` | src/src/net/node.rs:387-434 | The two gathering loops compute the specified samples, which `FusionLoop.GatheredAre` gives field by field |
| `FusionLoop.GatheredAre` | src/src/net/node.rs:387-434 | The gathered samples, field by field: those of exactly the peers other than the node with at least max(1, min_samples) offsets, then those of the NTP sources with that many, in configured order; id, median offset, median delay (0 without delays), size of the median jitter (0 without jitters), and the configured weight, else 1.0 for a peer and 0.2 for an NTP source, raised to at least 0.01 |
| `FusionLoop.Loop.RunFusionIteration` | src/src/net/node.rs:372-469 | One iteration takes smoother and ring to exactly the specified next state or panics with nothing changed; after a fusion the ring is the last 512 of the old one and the new point, and the drift is 1000 times its slope from three points on, none before |
| `FusionLoop.Loop.OnTick` | src/src/net/node.rs:200-220 | A tick does nothing while no peer is configured and one iteration otherwise; after any number of ticks the loop is where the run over its inputs ends, with exactly its outputs, and it panics exactly when that run does |
| `FusionRuns.RunTranslates` | src/src/net/node.rs:372-459 | Translation equivariance over runs: adding c to every stored offset adds exactly c to every fused mean and smoothed value; skipped iterations, kept peers, mean delays, weights and panics stay the same |
| `FusionRuns.RunOrder` | src/src/net/node.rs:387-449 | Order independence over runs: while no iteration breaks a tie, the configured order of peers and NTP sources changes no output |
| `FusionRuns.GatheredPermuted` | src/src/net/node.rs:387-434 | Reordering the configured sources permutes the gathered samples, self-exclusion and the sample limit included |
| `Breakdown.FusionBreakdownPoint` | src/src/time/fuse.rs:74-137 | The exact breakdown point, for every number of peers, quantile and trim ratio: the fused mean stays among the honest offset medians whatever f faulty samples claim if and only if f <= t and f < k - t |
| `Breakdown.FusionResistsFaults` | src/src/time/fuse.rs:74-106 | Under f <= t and f < k - t the fused mean lies between two honest offset medians, and the kept set has exactly max(1, k - 2t) elements |
| `Breakdown.FusedMeanInBand` | src/src/time/fuse.rs:74-106 | The same for any band and any predicate marking the faulty samples |
| `Breakdown.AttackSucceeds` | src/src/time/fuse.rs:74-137 | One faulty sample beyond the bound: an explicit attack moves the fused mean outside the honest offsets, or the code panics |
| `Fusion.SelectionIsBest` | src/src/time/fuse.rs:125-137 | Selection splits the samples so that nothing left out has a better score than anything selected, ties going to the earlier sample |
| `Fusion.SelectedAreBetter` | src/src/time/fuse.rs:125-141 | On the fields: the sizes of delay and jitter of anything selected add up to at most those of anything left out, and the selected come best first |
| `Fusion.ScoreLaw` | src/src/time/fuse.rs:139-141 | The score is zero for a perfect sample, symmetric in delay and jitter, blind to signs, and grows by exactly as much as either magnitude |
| `Fusion.KeepCountIsLeast` | src/src/time/fuse.rs:135-136 | The keep count is the least number of at least one that covers the fraction of the samples, or all of them |
| `Fusion.KeepCountBounds` | src/src/time/fuse.rs:135-136 | Between one and all of the samples are selected |
| `Fusion.TrimCountIsGreatest` | src/src/time/fuse.rs:82-82 | The trim count is the greatest number within the ratio, zero for a negative ratio |
| `Fusion.TrimmingOutcome` | src/src/time/fuse.rs:74-85 | Trimming panics if and only if there is no sample or the ratio is at least one; otherwise the kept samples are those at sorted positions t up to max(k - t, t + 1) |
| `Fusion.MeanBalances` | src/src/time/fuse.rs:88-106 | The fused offset and the fused delay are the only points about which the weighted deviations of the kept samples cancel |
| `Fusion.MeanInHull` | src/src/time/fuse.rs:88-101 | With non-negative weights the fused offset lies in the hull of the kept offsets, also when all weights are zero |
| `Fusion.WeightLaw` | src/src/time/fuse.rs:91-91 | The weight never grows with the jitter; it is the configured one without jitter and half of it at 1000 ns |
| `Fusion.WeightAt` | src/src/time/fuse.rs:91-91 | At every jitter: weight times (1000 + |jitter|) is 1000 times the configured weight |
| `Fusion.TotalWeightLaw` | src/src/time/fuse.rs:87-114 | Mean offset and mean delay times the total weight are the weighted sums whenever the weights add up to at least 2^-52; the total weight adds over kept samples taken together and is 2^-52 below that; without positive weight the means are the plain ones |
| `Fusion.EqualWeightsAdd` | src/src/time/fuse.rs:91-92 | n samples of weight w without jitter have total weight n w |
| `Fusion.Totals` | src/src/time/fuse.rs:87-95 | The accumulation loop computes the three weighted sums |
| `Fusion.FromSamples` | src/src/time/fuse.rs:73-114 | Panics exactly without samples or with a ratio of at least one; otherwise keeps the slice of max(1, k - 2t) samples in offset order from position t, and its means times the total weight are the weighted sums |
| `FusionLaws.FusionTranslates` | src/src/time/fuse.rs:73-137 | Adding c to every offset median adds exactly c to the fused offset and changes neither selection, kept set, weights, mean delay nor panics |
| `FusionLaws.SummaryTranslates` | src/src/time/fuse.rs:47-71 | Adding c to a non-empty offset series adds c to its median and changes neither the score nor the rest of the summary |
| `FusionLaws.SelectionOrder` | src/src/time/fuse.rs:125-137 | Selection is independent of the order of the samples if and only if no selected sample ties in score with a different one left out |
| `FusionLaws.FusionOrder` | src/src/time/fuse.rs:73-137 | Without such a tie, and with offsets that tell the selected samples apart, every permutation of the samples fuses alike |
| `FusionLaws.DistinctSamplesFuseAlike` | src/src/time/fuse.rs:73-137 | Pairwise distinct scores and pairwise distinct offset medians: permuting the samples changes neither fused offset, delay, total weight nor kept peers |
| `RobustMedian.MedianBreakdownPoint` | src/src/time/fuse.rs:143-155 | The median stays among the honest values whatever the faulty ones are if and only if strictly fewer than half are faulty |
| `RobustMedian.MedianResistsMinority` | src/src/time/fuse.rs:143-155 | With a strict minority corrupted the median lies between two honest values |
| `RobustMedian.MedianMonotone` | src/src/time/fuse.rs:143-155 | Raising values pointwise never lowers the median |
| `RobustMedian.MedianLipschitz` | src/src/time/fuse.rs:143-155 | The median moves by at most the largest change of a value |
| `RobustMedian.MedianTranslates` | src/src/time/fuse.rs:143-155 | Shifting all values by c shifts the median by c |
| `RobustMedian.MedianWithinDelay` | src/src/time/fuse.rs:143-155 | If every offset is within half of its own delay, plus slack, of c, the median offset is within half of the median delay, plus slack, of c |
| `RobustMedian.MedianOfPermutation` | src/src/time/fuse.rs:143-155 | The median does not depend on the order of the values |
| `StableSort.StableSortCharacterised` | src/src/time/fuse.rs:76-80 | A sequence is the result of the sort if and only if it is sorted by key and keeps every class of equal keys in its original order |
| `StableSort.SortContents` | src/src/time/fuse.rs:148-148 | Sorting permutes |
| `StableSort.OrderStatisticInBand` | src/src/time/fuse.rs:143-155 | With at most f elements outside a band, every order statistic with at least f positions on both sides is inside |
| `Percentile.HalfPercentileIsMedian` | src/src/telemetry/metrics.rs:164-177 | On every sorted sequence the 0.5 percentile equals the median that fusion computes, both absent for the empty one |
| `Percentile.PercentileMonotone` | src/src/telemetry/metrics.rs:164-177 | The percentile is monotone in q within and across interpolation segments, also for q outside [0, 1] |
| `Percentile.PercentileRange` | src/src/telemetry/metrics.rs:164-177 | The percentile never leaves [min, max] and reaches both at 0 and 1 |
| `Percentile.PercentileInterpolates` | src/src/telemetry/metrics.rs:168-173 | Between neighbouring ranks the percentile is the straight line through the two order statistics |
| `Percentile.AddQuantileSeries` | src/src/telemetry/metrics.rs:146-162 | The loop appends one line for each exported quantile of the sorted values, in order, and nothing for an empty series |
| `Percentile.FirstLineIsMedian` | src/src/telemetry/metrics.rs:146-162 | Of the two exported lines of any non-empty series, 0.50 carries the median and 0.95 the 0.95 percentile |
| `Ewma.WeightedEwma.Push` | src/src/time/fuse.rs:34-43 | The first value is taken over; afterwards the state moves toward the value by the fraction lambda (1 + weight / 4), none or all when that lies outside [0, 1] |
| `Ewma.StateInHull` | src/src/time/fuse.rs:34-43 | Over every sequence of pushes the state stays in the hull of the pushed values, whatever the weights |
| `Ewma.PushInHull` | src/src/time/fuse.rs:34-43 | One push keeps the state in every interval holding the value and the previous state |
| `Ewma.ErrorDecays` | src/src/time/fuse.rs:34-43 | While the pushes stay within e of c, with non-negative weights, the error after j pushes is at most e + (1 - lambda)^j times the earlier error |
| `Ewma.ErrorExact` | src/src/time/fuse.rs:34-43 | Under constant input the error is exactly the earlier error times the product of the factors 1 - alpha |
| `Ewma.StatesClose` | src/src/time/fuse.rs:34-43 | Changing every value by at most e moves the state by at most e |
| `Ewma.RampFollowed` | src/src/time/fuse.rs:34-43 | On a ramp the state is exactly the last value, minus rise (1 - alpha) / alpha, plus (1 - alpha)^j times that lag |
| `Ewma.AlphaSaturates` | src/src/time/fuse.rs:35-35 | Weight zero gives lambda; 4 alpha is lambda (4 + weight) up to saturation, and alpha is one if and only if lambda (4 + weight) >= 4 |
| `Ewma.PushTranslates` | src/src/time/fuse.rs:34-43 | Shifting value and state by c shifts the new state by c |
| `Drift.LinregSlopePpm` | src/src/time/drift.rs:1-16 | The method computes 1000 times the least-squares slope, 0 below three points |
| `Numeric.ToI64Law` | src/src/net/node.rs:460-460 | The cast of the smoothed offset truncates toward zero and saturates at both ends of the 64-bit range |
| `Drift.Accumulate` | src/src/time/drift.rs:8-13 | The loop computes the two sums of products of deviations |
| `Drift.LeastSquares` | src/src/time/drift.rs:5-14 | Slope and mean-centred intercept have a residual sum of squares no larger than that of any other line |
| `Drift.FitDecomposition` | src/src/time/drift.rs:5-14 | The residual sum of squares of any line is that of the fit plus a non-negative excess, given exactly |
| `Drift.SumsOverPairs` | src/src/time/drift.rs:5-13 | n times numerator and denominator equal the sums over pairs of (ti - tj)(oi - oj) and (ti - tj)^2 |
| `Drift.SlopeAmongPairSlopes` | src/src/time/drift.rs:5-14 | If every pair of points with distinct times has its slope in [lo, hi], so is the estimate; pairs with equal times need no condition |
| `Drift.SlopeOfBand` | src/src/time/drift.rs:5-14 | With all offsets within h of some value, slope times denominator is at most h times the spread of the timestamps |
| `Drift.DenVanishes` | src/src/time/drift.rs:8-14 | The denominator is positive if and only if the timestamps are not all equal |
| `Drift.TruncationError` | src/src/time/drift.rs:1-16 | Truncating a linear drift to integers at spacing at least g moves the slope by at most 2 / g; the reported figure is the slope times 1000 |
| `Drift.ExactLine` | src/src/time/drift.rs:14-15 | On exactly linear offsets the slope is exact, and 1000 times the reported figure is the poller's parts-per-million figure |
| `Drift.ReportedIsPpmOnlyWhenFlat` | src/src/time/drift.rs:14-15 | The reported figure is in parts per million if and only if the products of time and offset differences, summed over all pairs of points, cancel |
| `Drift.UnitDriftMisreported` | src/src/time/drift.rs:14-15 | The failing inputs: a clock that gains a nanosecond per nanosecond is reported as 1000, and as 1000000 by the poller |
| `TimeCalc.ExchangeAccuracy` | src/src/time/calc.rs:6-14 | For a causal exchange the delay is exactly the time on the wire, and twice the offset is within delay + 1 of twice the true offset |
| `TimeCalc.ErrorIsAsymmetry` | src/src/time/calc.rs:6-14 | Twice the offset is twice the true offset plus the path asymmetry, up to the halving, which rounds toward zero |
| `TimeCalc.AsymmetryIsInvisible` | src/src/time/calc.rs:6-14 | What any four timestamps reveal: a causal exchange with these timestamps and true offset o exists if and only if t2 <= t3 and t3 - t4 <= o <= t2 - t1 |
| `TimeCalc.OffsetIsTheMiddle` | src/src/time/calc.rs:6-14 | That interval is as wide as the computed delay and the computed offset is its middle, up to rounding; every other guess can be wrong by half the delay |
| `NtpCodec.EncodeNtpTimestamp` | src/src/net/ntp.rs:219-226 | Writes exactly the eight bytes of the encoding and leaves the rest of the buffer |
| `NtpCodec.EncodeRoundsDown` | src/src/net/ntp.rs:219-226 | In the era the wire value, counted from the Unix epoch, is the time rounded down to 2^-32 seconds |
| `NtpCodec.EncodeSaturates` | src/src/net/ntp.rs:222-224 | Past the era the wire seconds are 0xffffffff and the fraction goes on |
| `NtpCodec.WireIsBigEndian` | src/src/net/ntp.rs:219-240 | Seconds and fraction, as read, are the eight bytes as one big-endian number |
| `NtpCodec.DecodeRoundsDown` | src/src/net/ntp.rs:228-240 | The decoded time is the wire value, counted from the Unix epoch, rounded down to nanoseconds, also before the epoch; eight zero bytes mean zero |
| `NtpCodec.RoundTrip` | src/src/net/ntp.rs:219-240 | For every in-era time decode after encode gives ns when ns mod 10^9 is a multiple of 5^9, and ns - 1 otherwise |
| `NtpCodec.RoundTripExactlyInEra` | src/src/net/ntp.rs:222-224 | The round trip is exact up to one nanosecond if and only if the NTP seconds fit 32 bits |
| `NtpCodec.FracExact` | src/src/net/ntp.rs:223-223 | The 32-bit fraction is exact if and only if the nanoseconds are a multiple of 5^9 |
| `NtpCodec.EncodeIncreasing` | src/src/net/ntp.rs:219-226 | In the era the encoding is strictly increasing as a 64-bit big-endian number |
| `NtpCodec.ReverseRoundTrip` | src/src/net/ntp.rs:219-240 | Re-encoding a decoded timestamp at or after the Unix epoch keeps the seconds and lowers the fraction by between 0 and 5 units |
| `NtpPoll.RequestPacket` | src/src/net/ntp.rs:177-181 | The request has leap 0, version 4, mode 3, the transmit timestamp in bytes 40 to 47, and zeros elsewhere |
| `NtpPoll.OriginateFallback` | src/src/net/ntp.rs:197-208 | Whether the server echoes the transmit time or zeroes the field, delay and offset exceed those with the exact t1 by 0 or 1 |
| `NtpPoll.PollAccuracy` | src/src/net/ntp.rs:169-217 | Over the wire format, an honest poll has its delay within -1 and +2 of the path delay and its offset within (path delay + 3) / 2 of the true offset; it is stamped with the time of arrival and carries the stratum and, up to a nanosecond, the time of the answer |
| `NtpPoll.PollFields` | src/src/net/ntp.rs:196-216 | For any response: which bytes give stratum, receive and transmit time, and that a zero origin is replaced by t1 while any other is used as it is |
| `NtpPoll.NtpPoller.Observe` | src/src/net/ntp.rs:49-67 | Each sample replaces the remembered delay, offset and time and yields the next reading of the run over all samples so far; the drift is zero without an earlier sample or when time does not advance, and otherwise 10^6 times the change of the offset over the elapsed time |
| `NtpPoll.PollerJitter` | src/src/net/ntp.rs:50-52 | The jitters of a run are zero first, then the absolute consecutive differences of the delays |
| `NtpPoll.DriftIntegrates` | src/src/net/ntp.rs:54-67 | While timestamps advance, the drift readings integrate to the net change of the offset |
| `NtpPoll.DriftAt` | src/src/net/ntp.rs:54-67 | Every drift reading of every run: zero at first and when time does not advance, else 10^6 times the change of the offset over the elapsed time |
| `Protocol.Node.StampRequest` | src/src/net/node.rs:138-145 | Allocates the next 32-bit number, wrapping, and keeps it only if the clock can be read |
| `Protocol.Node.SendRequest` | src/src/net/node.rs:146-163 | Sends the stamped request, of version 1 and with the id of the node; a failed send abandons the number |
| `Protocol.Node.InsertPending` | src/src/net/node.rs:164-172 | Records the pending entry after the request has left |
| `Protocol.Node.HandleRequestBegin` | src/src/net/node.rs:236-240 | Reads t2 for a request of the right version, ignores others |
| `Protocol.Node.HandleRequestFinish` | src/src/net/node.rs:241-258 | Replies with the number and t1 of the request, t2 and t3 |
| `Protocol.Node.HandleResponseBegin` | src/src/net/node.rs:282-286 | Reads t4 for a response of the right version, ignores others |
| `Protocol.Node.HandleResponseFinish` | src/src/net/node.rs:288-323 | Whatever the answer, its number is no longer pending; a sample with the four timestamps, their delay and offset, and the jitter against the last delay is recorded exactly when the number was pending under the answering id, and nothing otherwise |
| `Protocol.Node.CleanupTimeouts` | src/src/net/node.rs:342-370 | The loop removes exactly the entries older than the timeout and returns each of them once |
| `Network.StepKeepsInv` | src/src/net/node.rs:137-323 | Every step of every node, the passing of time, and everything a faulty node may send keep the invariant that ties messages under protected ids, requests from guarded addresses, phases, pending entries and samples to real sends and clock readings |
| `Network.InvAlways` | src/src/net/node.rs:137-323 | The invariant holds in every reachable state of a network that loses, duplicates, reorders and delays, with any number of faulty nodes |
| `ProtocolSafety.Conservation` | src/src/net/node.rs:137-173 | In every reachable state before the counter wraps, whatever arrives from faulty nodes, each allocated number has exactly one fate among not sent, sent, pending, sampled, mismatched, expired, in agreement with the node; no number has two samples |
| `ProtocolSafety.NumberedAlways` | src/src/net/node.rs:137-173 | The ledger of numbers and the uniqueness of requests on the wire hold in every reachable state |
| `ProtocolSafety.SettledForever` | src/src/net/node.rs:288-302 | Whatever continues the run, sampled, mismatched and expired numbers stay so: duplicates and late responses never yield a second sample |
| `ProtocolSafety.MismatchSettles` | src/src/net/node.rs:288-302 | Over every run: finishing a response whose number is pending under another id uses the number up; nothing is recorded, no other entry changes, and no continuation before the wrap ever samples that number, whoever answers later |
| `ProtocolSafety.CleanupIsExact` | src/src/net/node.rs:342-361 | Cleanup expires exactly the numbers pending for more than 400 ms; no such entry survives it |
| `Timeouts.SampledExactlyUnlessSwept` | src/src/net/node.rs:288-361 | Over every run: the first response to a pending number, from the expected server, is sampled if and only if no cleanup of the node found the entry more than 400 ms old in between, however late the response is |
| `Timeouts.LateSample` | src/src/net/node.rs:288-302 | A reachable state in which a response read more than 400 ms after its entry was recorded is sampled |
| `Timeouts.AcceptedAge` | src/src/net/node.rs:176-182 | In every reachable state the age of an accepted entry is at most 400 ms plus the time since the last cleanup of the node |
| `ProtocolSafety.SamplesAreGenuine` | src/src/net/node.rs:137-323 | Genuine-exchange invariant over every run with faulty nodes: every sample under a trusted id comes from one causally ordered exchange with an honest node announcing that id, which answered this very request |
| `ProtocolSafety.SamplesAreAccurate` | src/src/net/node.rs:304-332 | Hence in every reachable state, whatever faulty nodes send, the delay of a sample under a trusted id is the time on the wire and its offset is within half of it, plus rounding, of the true clock difference |
| `History.SampleHistory` | src/src/net/node.rs:137-332 | The history of every sample under a trusted id, before the wrap: the node stamped, with this number, a request for the peer with that id at the address the answer came from; the node there took it, answered it, and the answer was taken, in this order; the timestamps are what the two clocks showed at these four steps, and the delay is exactly the time that passed on the two ways |
| `Trust.GenuineExactlyWhenTrusted` | src/src/net/node.rs:282-303 | The exact condition, below the wrap: a node's samples under an id other than its own are genuine in every run if and only if no faulty node may answer under that id and, when the id is announced at all, no faulty node sends requests from the node's address |
| `Trust.EchoesExactlyWhenTrusted` | src/src/net/node.rs:288-303 | Below the wrap every response accepted under an id other than the node's own echoes the pending t1, in every run, if and only if the node can trust the id |
| `Trust.GenuineExactlyWhenProtected` | src/src/net/node.rs:282-303 | For a node in whose name nobody else asks: genuine in every run if and only if no faulty node may answer under the id |
| `Trust.LiarAnswers` | src/src/net/node.rs:288-302 | The failing run: a faulty node answers the next sequence number under the id; the sample is not genuine and echoes another t1 |
| `Trust.LiarAsks` | src/src/net/node.rs:236-258 | The other failing run: a faulty node asks an honest server early in the node's name, and the honest answer, echoing another t1, is taken for the answer to a later request |
| `ProtocolSafety.EchoMakesGenuine` | src/src/net/node.rs:243-247 | A sample under a trusted id whose response echoes the pending t1 is genuine however often the counter has wrapped |
| `ProtocolSafety.EchoMatches` | src/src/net/node.rs:288-303 | Before the wrap every accepted response under a trusted id does echo the pending t1, though the code never compares it |
| `SeqWrap.GenuineExactlyBeforeWrap` | src/src/net/node.rs:65-65 | In all networks the samples under trusted ids of nodes with at most L allocations are genuine if and only if L <= 2^32 |
| `SeqWrap.WrapBreaksGenuineness` | src/src/net/node.rs:138-138 | An explicit run with 2^32 + 1 allocations records a sample that is not genuine and not accurate |
| `PeerJitter.JitterIsFirstDifference` | src/src/net/node.rs:313-323 | Under any interleaving, the runtime entry of a peer is its last accepted exchange and its jitters are zero first, then the absolute differences of its own delays, adding up to at least the net change |
| `PeerJitter.ConsecutiveJitter` | src/src/net/node.rs:313-323 | In every reachable state the first sample of a peer has jitter 0 and every other one the absolute difference of its delay and that of the previous sample of the same peer |
| `Jitter.DifferencesAt` | src/src/net/node.rs:316-319 | Element by element: zero first, then the absolute difference to the previous delay |
| `Jitter.TotalCoversSpan` | src/src/net/node.rs:316-319 | The jitters add up to at least the distance between last and first delay |
| `Store.RedisStore.TsAdd` | src/src/store/redis.rs:29-45 | Adds the member under its timestamp, trims up to the cutoff inclusive when the window is positive, bumps the 64-bit counter, leaves other keys alone; so every series is always what the adds made to its key leave, and before 2^64 adds no counter is used twice |
| `Store.AddLeaves` | src/src/store/redis.rs:29-45 | After an add exactly these entries are stored: the new one and the old ones with another member, without those whose score is at most that of the time one window before, when there is a window |
| `Store.StoredInOrder` | src/src/store/redis.rs:29-45 | In every stored series scores never fall, and entries of equal score are in the bytewise order of their members |
| `Store.RedisStore.TsRecent` | src/src/store/redis.rs:48-71 | Reads back what the adds made to the key left: the decoded last `limit` entries from `since` on, oldest first; without a limit, and while nothing asked for was trimmed, exactly the adds whose scores reach the bound, in order of time |
| `Store.TrimmingIsInvisible` | src/src/store/redis.rs:29-71 | Store refinement: for every run of adds and a bound above every cutoff used, the query on the trimmed set equals the query on the untrimmed log |
| `Store.TrimmingVisibleExactlyWhenLost` | src/src/store/redis.rs:38-61 | For every bound: all queries agree with the log if and only if no add within the bound has been trimmed |
| `Store.EqualityLosesAnEntry` | src/src/store/redis.rs:39-58 | With a bound equal to a cutoff an entry is lost, since trimming and querying are both inclusive |
| `Store.QueryReturnsRecentAdds` | src/src/store/redis.rs:29-71 | Reading back, for any rounding of timestamps to scores: above every cutoff an unlimited query returns exactly the adds whose score is at least that of `since`, each once with its rounded time and its value, in order of time |
| `Store.QueryMissesNothing` | src/src/store/redis.rs:29-71 | With a monotone rounding no add from `since` on is missing, whatever else is returned rounds to the score of `since`, and the answer is exactly the adds from `since` on if and only if no earlier add does |
| `Store.EarlierAddIsReturned` | src/src/store/redis.rs:37-41 | An add just before `since` that rounds up to it is returned with the time of `since` |
| `Store.EarlierAddExample` | src/src/store/redis.rs:37-41 | The failing input: with timestamps rounded to multiples of 256 ns, an add one nanosecond before a bound in 2027 |
| `ReadAge.ReadIsRecent` | src/src/net/node.rs:381-383 | No value is older when read than the window plus the lead of the hardware clock over the system clock, plus rounding |
| `ReadAge.NothingReadAhead` | src/src/net/node.rs:381-383 | When the system clock leads by more than the window, plus rounding, nothing is ever read |
| `ReadAge.OldAddsHideTrimming` | src/src/net/node.rs:381-383 | Trimming is invisible to the loop once every add is older than the lead of the hardware clock, plus rounding |
| `ReadAge.CutoffReachesBound` | src/src/store/redis.rs:38-41 | Without rounding, an add's cutoff reaches the bound if and only if the add is no older than the lead of the hardware clock |
| `Store.LimitTakesNewest` | src/src/store/redis.rs:60-64 | A limited query is exactly the last `limit` pairs of the unlimited one |
| `Store.RecentWasAdded` | src/src/store/redis.rs:29-71 | Whatever was trimmed, every pair a query shows is the rounded time and the value of an add whose score reaches the bound |
| `Store.LogKeepsEverything` | src/src/store/redis.rs:30-37 | With distinct counters no add displaces another |
| `Store.ParseRoundTrip` | src/src/store/redis.rs:30-35 | The value parsed from a written member is the value added |
| `Store.ParseForeign` | src/src/store/redis.rs:105-107 | A member without a colon has no value; otherwise what lies between the first two colons is parsed |
| `Store.MemberExample` | src/src/store/redis.rs:30-35 | A member reads as time, value and counter in decimal, with colons between |
| `Store.RevRangeIsLast` | src/src/store/redis.rs:55-64 | Reversing the newest-first limited query gives the newest entries, oldest first |

## Left out

- UDP sockets, the tokio runtime, DNS lookup, the `ping` subprocess and the Redis client: only the
  sorted-set operations and the atomic steps between await points are modelled.
- Clock reading (`src/src/phc/reader.rs`) and `adjtimex` (`src/src/time/slew.rs`): readings are parameters;
  the fallback to another clock when a read fails in `handle_request` and `handle_response` is not
  distinguished from a successful read.
- bincode encoding, signature and reserved fields, the message kind byte, `server_quality`: messages are
  datatypes; the fields carry no logic.
- IEEE rounding and NaN, and the loss of an `i64` or `i128` beyond 2^53 when cast to a float:
  arithmetic is over reals, and offsets are stored as floats that hold them exactly.
- `usize` and `i128` overflow, which the quantities involved do not reach.
- Failing Redis reads, which abort an iteration before it changes anything, and the writes of fused
  series and summary hashes, the leave-one-out NTP mean, service latency and quality series: little
  to prove.
- HTTP serving, the text of metric lines beyond their values, configuration loading and defaults,
  Grafana, Docker and chrony files.
- Store.LogKeepsEverything: needs distinct values of the sample counter, that is fewer than 2^64 adds.
- Ewma.ErrorDecays: needs non-negative weights, which total weights always are; StateInHull does not need it.
- ProtocolSafety.SamplesAreGenuine: an honest node's clock differs from global time by a constant; a clock that drifts or steps
  makes its node faulty here.
- FusionRuns.RunTranslates: says nothing about drift, since offsets are truncated to integers before the regression.
