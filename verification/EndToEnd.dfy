/** End to end: from clocks and exchanges, through the store and the fusion loop, to the
    smoothed offset.  Composes src/net/node.rs, src/net/ntp.rs, src/store/redis.rs,
    src/time/calc.rs and src/time/fuse.rs. */
module EndToEnd {
  import opened Wrappers
  import opened Numeric
  import opened StableSort
  import opened Fusion
  import opened Breakdown
  import opened TimeCalc
  import opened FusionLoop
  import opened RunAccuracy
  import opened RunDrift
  import opened ScoreAccuracy
  import NtpCodec
  import NtpPoll
  import Network
  import Protocol
  import ProtocolSafety
  import Store

  function Low(trueOffset: int, d: nat): real {
    trueOffset as real - (d + 1) as real / 2.0
  }

  function High(trueOffset: int, d: nat): real {
    trueOffset as real + (d + 1) as real / 2.0
  }

  lemma NearIsWithin(offset: int, trueOffset: int, delay: int, d: nat)
    requires Near(offset, trueOffset, delay) && delay <= d
    ensures Low(trueOffset, d) <= offset as real <= High(trueOffset, d)
  {
  }

  // ----- peers

  /** The value is the offset of a recorded exchange with the peer that spent at most d on the wire. */
  ghost predicate FromExchange(v: real, samples: seq<Protocol.Sample>, peer: nat, d: nat) {
    exists j :: 0 <= j < |samples| && samples[j].peer == peer && samples[j].delay <= d && v == samples[j].offset as real
  }

  /** Node n can rely on answers under this id, and every node that announces it is `trueOffset`
      ahead of node n.  Other peers may be faulty in any way. */
  ghost predicate Reliable(topo: Network.Topology, n: nat, peer: nat, trueOffset: int)
    requires n in topo
  {
    && ProtocolSafety.Trusted(topo, n, peer)
    && forall m :: m in topo && topo[m].id == peer ==> topo[m].clock - topo[n].clock == trueOffset
  }

  lemma ExchangeIsNear(topo: Network.Topology, start: int, steps: seq<Network.Step>, s: Network.System, n: nat,
                       trueOffset: int, j: nat)
    requires Network.Reaches(topo, start, steps, s) && n in topo && n in s.nodes
    requires s.nodes[n].allocs <= Protocol.SEQ_SPACE && j < |s.nodes[n].samples|
    requires Reliable(topo, n, s.nodes[n].samples[j].peer, trueOffset)
    ensures Near(s.nodes[n].samples[j].offset, trueOffset, s.nodes[n].samples[j].delay)
  {
    hide Near, Network.Reaches, ProtocolSafety.ExchangeOf, ProtocolSafety.Trusted;
    ProtocolSafety.SamplesAreAccurate(topo, start, steps, s, n, j);
  }

  /** What such an exchange records is within (d + 1) / 2 of the true offset, in any reachable
      state and whatever faulty nodes have sent. */
  lemma PeerValueWithin(topo: Network.Topology, start: int, steps: seq<Network.Step>, s: Network.System, n: nat,
                        v: real, peer: nat, trueOffset: int, d: nat)
    requires Network.Reaches(topo, start, steps, s) && n in topo && n in s.nodes
    requires s.nodes[n].allocs <= Protocol.SEQ_SPACE
    requires Reliable(topo, n, peer, trueOffset) && FromExchange(v, s.nodes[n].samples, peer, d)
    ensures Low(trueOffset, d) <= v <= High(trueOffset, d)
  {
    hide Low, High, Near, Network.Reaches, Reliable;
    var samples := s.nodes[n].samples;
    var j :| 0 <= j < |samples| && samples[j].peer == peer && samples[j].delay <= d && v == samples[j].offset as real;
    ExchangeIsNear(topo, start, steps, s, n, trueOffset, j);
    NearIsWithin(samples[j].offset, trueOffset, samples[j].delay, d);
  }

  // ----- NTP sources

  /** One poll: the response and the exchange behind it. */
  datatype Poll = Poll(resp: seq<NtpCodec.Byte>, exchange: Exchange)

  ghost predicate HonestPoll(p: Poll, trueOffset: int) {
    && |p.resp| == NtpPoll.NTP_PACKET_LEN && NtpPoll.HonestReply(p.resp, p.exchange)
    && p.exchange.TrueOffset() == trueOffset
  }

  ghost function Polled(p: Poll, trueOffset: int): NtpPoll.NtpSample
    requires HonestPoll(p, trueOffset)
  {
    NtpPoll.PollResult(p.resp, NtpPoll.NTP_PACKET_LEN, p.exchange.g1 + p.exchange.local,
                       p.exchange.g4 + p.exchange.local).value
  }

  /** The value is the offset of an honest poll over a path of at most d - 2. */
  ghost predicate FromPoll(v: real, trueOffset: int, d: nat) {
    exists p ::
      HonestPoll(p, trueOffset) && p.exchange.PathDelay() + 2 <= d && v == Polled(p, trueOffset).offset as real
  }

  lemma PollValueWithin(v: real, trueOffset: int, d: nat)
    requires FromPoll(v, trueOffset, d)
    ensures Low(trueOffset, d) <= v <= High(trueOffset, d)
  {
    hide Low, High, Near, NtpPoll.PollResult;
    var p :|
      HonestPoll(p, trueOffset) && p.exchange.PathDelay() + 2 <= d && v == Polled(p, trueOffset).offset as real;
    NtpPoll.PollNear(p.resp, p.exchange);
    NearIsWithin(Polled(p, trueOffset).offset, trueOffset, p.exchange.PathDelay() + 2, d);
  }

  // ----- honest sources

  /** One iteration of the loop: the run of the network so far, and what the loop reads. */
  datatype Moment = Moment(steps: seq<Network.Step>, s: Network.System, inputs: Inputs)

  /** The common setting: node n of a network started at `start`, its configuration, and the
      accuracy sought. */
  datatype Setting = Setting(topo: Network.Topology, start: int, n: nat, cfg: FilterCfg, trueOffset: int, d: nat)

  /** The run is possible and the node's counter has not wrapped. */
  ghost predicate Possible(w: Setting, m: Moment) {
    && Network.Reaches(w.topo, w.start, m.steps, m.s) && w.n in w.topo && w.n in m.s.nodes
    && m.s.nodes[w.n].allocs <= Protocol.SEQ_SPACE
  }

  function Except(good: real -> bool): real -> bool {
    v => !good(v)
  }

  /** Fewer than half of the offsets read are anything else than what `good` accepts: slow
      exchanges, faults of the store, leftovers of a past fault. */
  ghost predicate Mostly(good: real -> bool, src: Source) {
    2 * Count(Except(good), Values(src.offsets)) < |src.offsets|
  }

  ghost function GoodExchange(w: Setting, m: Moment, peer: nat): real -> bool
    requires Possible(w, m)
  {
    v => FromExchange(v, m.s.nodes[w.n].samples, peer, w.d)
  }

  ghost function GoodPoll(w: Setting): real -> bool {
    v => FromPoll(v, w.trueOffset, w.d)
  }

  /** A reliable peer or an NTP server of which most offsets read are good. */
  ghost predicate Honest(w: Setting, m: Moment, src: Source)
    requires Possible(w, m)
  {
    || (Reliable(w.topo, w.n, src.id, w.trueOffset) && Mostly(GoodExchange(w, m, src.id), src))
    || Mostly(GoodPoll(w), src)
  }

  lemma GoodValueWithin(w: Setting, m: Moment, peer: nat, v: real)
    requires Possible(w, m)
    requires (Reliable(w.topo, w.n, peer, w.trueOffset) && GoodExchange(w, m, peer)(v)) || GoodPoll(w)(v)
    ensures Low(w.trueOffset, w.d) <= v <= High(w.trueOffset, w.d)
  {
    hide Low, High, Reliable, FromExchange, FromPoll, Network.Reaches;
    if GoodPoll(w)(v) {
      PollValueWithin(v, w.trueOffset, w.d);
    } else {
      PeerValueWithin(w.topo, w.start, m.steps, m.s, w.n, v, peer, w.trueOffset, w.d);
    }
  }

  /** The median's robustness at work: such a source is not corrupted. */
  lemma HonestSourceWithin(w: Setting, m: Moment, src: Source)
    requires Possible(w, m) && Honest(w, m, src)
    ensures !Corrupted(Low(w.trueOffset, w.d), High(w.trueOffset, w.d))(src)
  {
    hide Low, High, Reliable, Possible, Count, Values, FromExchange, FromPoll;
    var lo, hi, values := Low(w.trueOffset, w.d), High(w.trueOffset, w.d), Values(src.offsets);
    var good := if Mostly(GoodPoll(w), src) then GoodPoll(w) else GoodExchange(w, m, src.id);
    assert Mostly(good, src);
    forall i | 0 <= i < |values| && Beyond(lo, hi)(values[i]) ensures !good(values[i]) {
      if good(values[i]) {
        GoodValueWithin(w, m, src.id, values[i]);
      }
    }
    CountPointwise(Beyond(lo, hi), Except(good), values, values);
  }

  // ----- what the store shows of a series

  /** A query on the series left by a run of adds. */
  datatype Query = Query(adds: seq<Store.Add>, since: nat, limit: nat)

  function Answer(fl: Store.Floats, q: Query): Series {
    Store.SeriesRecent(fl, Store.Trimmed(fl, q.adds), q.since, q.limit)
  }

  /** Whatever was trimmed, displaced or cut off, a series to which only good values were added
      reads as mostly good; writes may have failed. */
  lemma StoredIsMostly(fl: Store.Floats, q: Query, good: real -> bool, src: Source)
    requires Store.Faithful(fl) && Store.AllFloats(fl, q.adds) && src.offsets == Answer(fl, q) && |src.offsets| > 0
    requires forall i :: 0 <= i < |q.adds| ==> good(q.adds[i].val)
    ensures Mostly(good, src)
  {
    var values := Values(src.offsets);
    forall k | 0 <= k < |values| ensures good(values[k]) {
      var i := Store.RecentWasAdded(fl, q.adds, q.since, q.limit, k);
    }
    CountNone(Except(good), values);
  }

  // ----- whole runs

  /** Of the m participants, k are selected and t trimmed at each end; the others than the
      honest ones are at most t, and fewer than k - t. */
  ghost predicate FewFaulty(w: Setting, m: Moment)
    requires Possible(w, m)
  {
    var sources := Participants(w.cfg, m.inputs);
    |sources| > 0 ==>
      var k := KeepCount(|sources|, w.cfg.bestQuantile);
      Tolerated(k, TrimCount(k, w.cfg.trimRatio), Count(src => !Honest(w, m, src), sources))
  }

  lemma MomentIsSafe(w: Setting, m: Moment)
    requires Possible(w, m) && FewFaulty(w, m)
    ensures Safe(w.cfg, m.inputs, Low(w.trueOffset, w.d), High(w.trueOffset, w.d))
  {
    hide Low, High, Possible, Honest, Corrupted, TrimCount, KeepCount, Participants, Count;
    var lo, hi := Low(w.trueOffset, w.d), High(w.trueOffset, w.d);
    var sources := Participants(w.cfg, m.inputs);
    var faulty := src => !Honest(w, m, src);
    forall i | 0 <= i < |sources| && Corrupted(lo, hi)(sources[i]) ensures faulty(sources[i]) {
      if Honest(w, m, sources[i]) {
        HonestSourceWithin(w, m, sources[i]);
      }
    }
    CountPointwise(Corrupted(lo, hi), faulty, sources, sources);
  }

  function InputsOf(history: seq<Moment>): (r: seq<Inputs>)
    ensures |r| == |history| && forall i :: 0 <= i < |history| ==> r[i] == history[i].inputs
  {
    seq(|history|, i requires 0 <= i < |history| => history[i].inputs)
  }

  ghost predicate Sound(w: Setting, history: seq<Moment>) {
    forall i :: 0 <= i < |history| ==> Possible(w, history[i]) && FewFaulty(w, history[i])
  }

  lemma HistoryIsSafe(w: Setting, history: seq<Moment>)
    requires Sound(w, history)
    ensures forall i :: 0 <= i < |history| ==>
              Safe(w.cfg, InputsOf(history)[i], Low(w.trueOffset, w.d), High(w.trueOffset, w.d))
  {
    hide Possible, FewFaulty, Safe, Low, High;
    forall i | 0 <= i < |history|
      ensures Safe(w.cfg, InputsOf(history)[i], Low(w.trueOffset, w.d), High(w.trueOffset, w.d))
    {
      MomentIsSafe(w, history[i]);
    }
  }

  /** Every fused mean and every smoothed offset is within e of c. */
  ghost predicate OutputsNear(outputs: seq<Output>, c: real, e: real) {
    forall i :: 0 <= i < |outputs| && outputs[i].Fused? ==>
      Abs(outputs[i].stats.meanOffset - c) <= e && Abs(outputs[i].smoothed - c) <= e
  }

  lemma WithinIsNear(run: Run, c: real, e: real)
    requires RunWithin(run, c - e, c + e)
    ensures OutputsNear(run.outputs, c, e)
  {
    forall i | 0 <= i < |run.outputs| && run.outputs[i].Fused?
      ensures Abs(run.outputs[i].stats.meanOffset - c) <= e && Abs(run.outputs[i].smoothed - c) <= e
    {
      assert InBand(run.outputs[i], c - e, c + e);
    }
  }

  /** End-to-end accuracy over every run: in every iteration the fused mean and the smoothed
      offset are within (d + 1) / 2 of the true offset, and the loop never panics. */
  lemma SmoothedOffsetIsAccurate(w: Setting, rate: real, history: seq<Moment>)
    requires Sound(w, history)
    ensures RunLoop(w.cfg, Start(rate), InputsOf(history)).Returned?
    ensures OutputsNear(RunLoop(w.cfg, Start(rate), InputsOf(history)).value.outputs,
                        w.trueOffset as real, (w.d + 1) as real / 2.0)
  {
    hide Sound, RunLoop, Safe, RunWithin, OutputsNear;
    HistoryIsSafe(w, history);
    RunInBand(w.cfg, rate, InputsOf(history), Low(w.trueOffset, w.d), High(w.trueOffset, w.d));
    WithinIsNear(RunLoop(w.cfg, Start(rate), InputsOf(history)).value, w.trueOffset as real, (w.d + 1) as real / 2.0);
  }

  /** Recovery: whatever the loop smoothed before, once every iteration is sound the error
      above (d + 1) / 2 shrinks by at least the factor 1 - lambda with every fusion. */
  lemma SmoothedOffsetConverges(w: Setting, st: LoopState, history: seq<Moment>)
    requires Sound(w, history)
    requires st.ewma.init && 0.0 <= st.ewma.rate <= 1.0
    ensures RunLoop(w.cfg, st, InputsOf(history)).Returned?
    ensures var run := RunLoop(w.cfg, st, InputsOf(history)).value;
            Ewma.ErrorWithin(run.state.ewma, w.trueOffset as real,
              (w.d + 1) as real / 2.0
              + Ewma.Decay(Abs(st.ewma.state - w.trueOffset as real), 1.0 - st.ewma.rate, |Smoothed(run.outputs)|))
  {
    hide Sound, RunLoop, Safe, Ewma.Decay, Smoothed;
    HistoryIsSafe(w, history);
    RunConverges(w.cfg, st, InputsOf(history), w.trueOffset as real, (w.d + 1) as real / 2.0);
  }

  /** What the loop would steer the clock by: the reported drift, times the squared deviations of
      the ring's times, is at most 1000 (d + 3) / 2 times their spread. */
  lemma ReportedDriftIsBounded(w: Setting, rate: real, history: seq<Moment>, run: Run)
    requires Sound(w, history)
    requires RunLoop(w.cfg, Start(rate), InputsOf(history)) == Returned(run) && LastDrift(run).Some?
    requires I64_MIN as real <= Low(w.trueOffset, w.d) && High(w.trueOffset, w.d) <= I64_MAX as real
    ensures var ring := run.state.ring;
            && |ring| > 0
            && Abs(LastDrift(run).value * Drift.Den(ring)) <=
               1000.0 * ((w.d + 3) as real / 2.0 * Drift.TimeSpread(ring, Drift.Mean(Drift.T, ring)))
  {
    hide Sound, RunLoop, Safe, RunWithin, LastDrift, Drift.Den, Drift.TimeSpread, Drift.Mean;
    HistoryIsSafe(w, history);
    RunInBand(w.cfg, rate, InputsOf(history), Low(w.trueOffset, w.d), High(w.trueOffset, w.d));
    DriftOfBand(w.cfg, rate, InputsOf(history), run, Low(w.trueOffset, w.d), High(w.trueOffset, w.d));
    assert (High(w.trueOffset, w.d) - Low(w.trueOffset, w.d) + 2.0) / 2.0 == (w.d + 3) as real / 2.0;
  }

  // ----- accuracy from the scores, without a bound on the delays

  function ExchangeOffset(x: Protocol.Sample): real { x.offset as real }

  function ExchangeDelay(x: Protocol.Sample): real { x.delay as real }

  /** The offsets and delays read, in whatever order, are those of recorded exchanges with the peer. */
  ghost predicate ReadExchanges(src: Source, samples: seq<Protocol.Sample>, xs: seq<Protocol.Sample>) {
    && (forall x :: x in xs ==> x in samples && x.peer == src.id)
    && multiset(Values(src.offsets)) == multiset(Map(ExchangeOffset, xs))
    && multiset(Values(src.delays)) == multiset(Map(ExchangeDelay, xs))
  }

  ghost function PollOffset(trueOffset: int): Poll -> real {
    p => if HonestPoll(p, trueOffset) then Polled(p, trueOffset).offset as real else 0.0
  }

  ghost function PollDelay(trueOffset: int): Poll -> real {
    p => if HonestPoll(p, trueOffset) then Polled(p, trueOffset).delay as real else 0.0
  }

  /** The same for honest polls. */
  ghost predicate ReadPolls(src: Source, polls: seq<Poll>, trueOffset: int) {
    && (forall p :: p in polls ==> HonestPoll(p, trueOffset))
    && multiset(Values(src.offsets)) == multiset(Map(PollOffset(trueOffset), polls))
    && multiset(Values(src.delays)) == multiset(Map(PollDelay(trueOffset), polls))
  }

  lemma MapPairs<T>(f: T -> real, g: T -> real, s: seq<T>) returns (pairs: seq<(real, real)>)
    ensures |pairs| == |s| && forall i :: 0 <= i < |s| ==> pairs[i] == (f(s[i]), g(s[i]))
    ensures Map(First, pairs) == Map(f, s) && Map(Second, pairs) == Map(g, s)
  {
    pairs := seq(|s|, i requires 0 <= i < |s| => (f(s[i]), g(s[i])));
  }

  lemma NearIsWithinDelay(offset: int, delay: int, trueOffset: int, wire: int, slack: real)
    requires Near(offset, trueOffset, wire) && wire as real + 1.0 <= delay as real + slack
    ensures RobustMedian.WithinDelay(offset as real, delay as real, trueOffset as real, slack)
  {
  }

  /** A reliable peer read in full is as accurate as its own delays say, up to one nanosecond. */
  lemma PeerIsMeasured(w: Setting, m: Moment, src: Source, xs: seq<Protocol.Sample>)
    requires Possible(w, m) && Reliable(w.topo, w.n, src.id, w.trueOffset)
    requires ReadExchanges(src, m.s.nodes[w.n].samples, xs)
    ensures Measured(src, w.trueOffset as real, 1.0)
  {
    hide Reliable, Network.Reaches, Near, Values, Map;
    var samples := m.s.nodes[w.n].samples;
    var pairs := MapPairs(ExchangeOffset, ExchangeDelay, xs);
    forall i | 0 <= i < |pairs| ensures RobustMedian.WithinDelay(pairs[i].0, pairs[i].1, w.trueOffset as real, 1.0) {
      assert xs[i] in xs;
      var j :| 0 <= j < |samples| && samples[j] == xs[i];
      ExchangeIsNear(w.topo, w.start, m.steps, m.s, w.n, w.trueOffset, j);
      NearIsWithinDelay(xs[i].offset, xs[i].delay, w.trueOffset, xs[i].delay, 1.0);
    }
    assert MeasuredBy(src, pairs, w.trueOffset as real, 1.0);
  }

  lemma PollIsMeasured(p: Poll, trueOffset: int)
    requires HonestPoll(p, trueOffset)
    ensures RobustMedian.WithinDelay(Polled(p, trueOffset).offset as real, Polled(p, trueOffset).delay as real,
                                     trueOffset as real, 4.0)
  {
    hide Near, NtpPoll.PollResult, RobustMedian.WithinDelay;
    NtpPoll.PollNear(p.resp, p.exchange);
    NearIsWithinDelay(Polled(p, trueOffset).offset, Polled(p, trueOffset).delay, trueOffset,
                      p.exchange.PathDelay() + 2, 4.0);
  }

  /** An honest NTP server is, up to four. */
  lemma ServerIsMeasured(src: Source, polls: seq<Poll>, trueOffset: int)
    requires ReadPolls(src, polls, trueOffset)
    ensures Measured(src, trueOffset as real, 4.0)
  {
    hide HonestPoll, Polled, Values, Map, RobustMedian.WithinDelay;
    var pairs := MapPairs(PollOffset(trueOffset), PollDelay(trueOffset), polls);
    forall i | 0 <= i < |pairs| ensures RobustMedian.WithinDelay(pairs[i].0, pairs[i].1, trueOffset as real, 4.0) {
      assert polls[i] in polls;
      PollIsMeasured(polls[i], trueOffset);
    }
    assert MeasuredBy(src, pairs, trueOffset as real, 4.0);
  }

  /** A reliable peer, or an honest server when the slack allows for the wire format. */
  ghost predicate Candid(w: Setting, m: Moment, src: Source, slack: real)
    requires Possible(w, m)
  {
    || (slack >= 1.0 && Reliable(w.topo, w.n, src.id, w.trueOffset)
        && exists xs :: ReadExchanges(src, m.s.nodes[w.n].samples, xs))
    || (slack >= 4.0 && exists polls :: ReadPolls(src, polls, w.trueOffset))
  }

  lemma MeasuredWithSlack(src: Source, c: real, slack: real, slack': real)
    requires Measured(src, c, slack) && slack <= slack'
    ensures Measured(src, c, slack')
  {
    hide Values;
    var pairs: seq<(real, real)> :| MeasuredBy(src, pairs, c, slack);
    assert forall i :: 0 <= i < |pairs| ==> RobustMedian.WithinDelay(pairs[i].0, pairs[i].1, c, slack);
    assert MeasuredBy(src, pairs, c, slack');
  }

  lemma CandidIsMeasured(w: Setting, m: Moment, src: Source, slack: real)
    requires Possible(w, m) && Candid(w, m, src, slack)
    ensures Measured(src, w.trueOffset as real, slack)
  {
    hide Network.Reaches, Reliable, ReadExchanges, ReadPolls, Measured;
    if polls :| slack >= 4.0 && ReadPolls(src, polls, w.trueOffset) {
      ServerIsMeasured(src, polls, w.trueOffset);
      MeasuredWithSlack(src, w.trueOffset as real, 4.0, slack);
    } else {
      var xs :| ReadExchanges(src, m.s.nodes[w.n].samples, xs);
      PeerIsMeasured(w, m, src, xs);
      MeasuredWithSlack(src, w.trueOffset as real, 1.0, slack);
    }
  }

  /** At least k participants score at most S, and few are not candid. */
  ghost predicate WellScored(w: Setting, m: Moment, slack: real, score: real)
    requires Possible(w, m)
  {
    var sources := Participants(w.cfg, m.inputs);
    |sources| > 0 ==>
      var k := KeepCount(|sources|, w.cfg.bestQuantile);
      && Count(ScoreAtMost(score), Gathered(w.cfg, m.inputs)) >= k
      && Tolerated(k, TrimCount(k, w.cfg.trimRatio), Count(src => !Candid(w, m, src, slack), sources))
  }

  lemma MomentIsScoredSafe(w: Setting, m: Moment, slack: real, score: real)
    requires Possible(w, m) && WellScored(w, m, slack, score)
    ensures ScoredSafe(w.cfg, m.inputs, w.trueOffset as real, slack, score)
  {
    hide Possible, Candid, Measured, TrimCount, KeepCount, Participants, Gathered, Count, ScoreAtMost;
    var sources := Participants(w.cfg, m.inputs);
    var faulty := src => !Candid(w, m, src, slack);
    var unmeasured := (src: Source) => !Measured(src, w.trueOffset as real, slack);
    forall i | 0 <= i < |sources| && unmeasured(sources[i]) ensures faulty(sources[i]) {
      if Candid(w, m, sources[i], slack) {
        CandidIsMeasured(w, m, sources[i], slack);
      }
    }
    CountPointwise(unmeasured, faulty, sources, sources);
  }

  /** End-to-end accuracy from the scores: while in every iteration k participants score at most
      S and few are not candid, every fused mean and every smoothed offset is within
      (S + slack) / 2 of the true offset, whatever the delays of the other exchanges. */
  lemma ScoredOffsetIsAccurate(w: Setting, rate: real, history: seq<Moment>, slack: real, score: real)
    requires forall i :: 0 <= i < |history| ==> Possible(w, history[i]) && WellScored(w, history[i], slack, score)
    ensures RunLoop(w.cfg, Start(rate), InputsOf(history)).Returned?
    ensures OutputsNear(RunLoop(w.cfg, Start(rate), InputsOf(history)).value.outputs,
                        w.trueOffset as real, (score + slack) / 2.0)
  {
    hide Possible, WellScored, ScoredSafe, RunLoop, RunWithin, OutputsNear;
    forall i | 0 <= i < |history| ensures ScoredSafe(w.cfg, InputsOf(history)[i], w.trueOffset as real, slack, score) {
      MomentIsScoredSafe(w, history[i], slack, score);
    }
    ScoredRun(w.cfg, rate, InputsOf(history), w.trueOffset as real, slack, score);
    WithinIsNear(RunLoop(w.cfg, Start(rate), InputsOf(history)).value, w.trueOffset as real, (score + slack) / 2.0);
  }
}
