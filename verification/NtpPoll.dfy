/** One NTP poll and the poller's running state, src/net/ntp.rs lines 28-67 and 161-217
    (packet fields of section 7.3 of RFC 5905). */
module NtpPoll {
  import opened Wrappers
  import opened NtpCodec
  import opened TimeCalc
  import opened Jitter

  const NTP_PACKET_LEN := 48

  datatype NtpSample = NtpSample(timestamp: nat, offset: int, delay: int, stratum: Byte, remoteTime: int)

  /** The client packet: leap 0, version 4, mode 3, and the transmit timestamp. */
  method RequestPacket(t1: nat) returns (packet: array<Byte>)
    ensures fresh(packet) && packet.Length == 48
    ensures packet[0] == 0x23 && packet[40..48] == Encode(t1)
    ensures forall i :: 1 <= i < 40 ==> packet[i] == 0
  {
    packet := new Byte[NTP_PACKET_LEN](_ => 0);
    packet[0] := 0x23;
    EncodeNtpTimestamp(packet, 40, t1);
    assert packet[..40][0] == 0x23;
    forall i | 1 <= i < 40 ensures packet[i] == 0 {
      assert packet[..40][i] == 0;
    }
  }

  /** The timestamp the server is taken to answer; servers may leave the field zero. */
  function OriginUsed(echoed: int, t1: nat): int {
    if echoed == 0 then t1 else echoed
  }

  /** Interpreting a response of `len` bytes received at t4; a short one is an error. */
  function PollResult(resp: seq<Byte>, len: nat, t1: nat, t4: nat): (r: Option<NtpSample>)
    requires |resp| == NTP_PACKET_LEN
    ensures r.Some? <==> len >= 48
  {
    if len < NTP_PACKET_LEN then None
    else
      var t1Remote := Decode(resp[24..32]).value;
      var t2Remote := Decode(resp[32..40]).value;
      var t3Remote := Decode(resp[40..48]).value;
      var pair := ComputeOffsetDelay(OriginUsed(t1Remote, t1), t2Remote, t3Remote, t4);
      Some(NtpSample(t4, pair.offset, pair.delay, resp[1], t3Remote))
  }

  /** What is read from where: the transmit timestamp at 40, the receive timestamp at 32, the
      stratum in byte 1, and the echoed origin at 24, for which t1 stands in when it is zero. */
  lemma PollFields(resp: seq<Byte>, len: nat, t1: nat, t4: nat)
    requires |resp| == 48 && len >= 48
    ensures var s, origin := PollResult(resp, len, t1, t4).value, Decode(resp[24..32]).value;
            && s.timestamp == t4 && s.stratum == resp[1] && s.remoteTime == Decode(resp[40..48]).value
            && (origin == 0 ==> s.delay == (t4 - t1) - (s.remoteTime - Decode(resp[32..40]).value))
            && (origin != 0 ==> s.delay == (t4 - origin) - (s.remoteTime - Decode(resp[32..40]).value))
            && (origin == 0 ==> -1 <= 2 * s.offset - (Decode(resp[32..40]).value - t1 + s.remoteTime - t4) <= 1)
            && (origin != 0 ==> -1 <= 2 * s.offset - (Decode(resp[32..40]).value - origin + s.remoteTime - t4) <= 1)
  {
    hide Decode;
  }

  function Zeros(): seq<Byte> { [0, 0, 0, 0, 0, 0, 0, 0] }

  lemma ZerosDecode()
    ensures Decode(Zeros()) == Some(0)
  {
    var z := Zeros();
    assert z[0..4] == [0, 0, 0, 0] && z[4..8] == [0, 0, 0, 0];
    assert FromBe([0, 0, 0, 0]) == 0;
  }

  /** Whether the server echoes the transmit timestamp or zeroes the field, the origin used
      is t1 or the nanosecond before it. */
  lemma OriginIsClose(origin: seq<Byte>, t1: nat)
    requires InEra(t1) && (origin == Encode(t1) || origin == Zeros())
    ensures t1 - 1 <= OriginUsed(Decode(origin).value, t1) <= t1
  {
    hide Decode, Encode, Loss;
    if origin == Encode(t1) {
      RoundTrip(t1);
      LossBound(t1 % NS_PER_SEC);
    } else {
      ZerosDecode();
    }
  }

  lemma LossBound(x: nat)
    ensures Loss(x) <= 1
  {
  }

  /** The originate fallback is harmless: against the exact t1 the delay grows by 0 or 1 and
      the offset by 0 or 1. */
  lemma OriginateFallback(resp: seq<Byte>, t1: nat, t4: nat)
    requires |resp| == NTP_PACKET_LEN && InEra(t1)
    requires resp[24..32] == Encode(t1) || resp[24..32] == Zeros()
    ensures var sample := PollResult(resp, NTP_PACKET_LEN, t1, t4).value;
            var exact := ComputeOffsetDelay(t1, Decode(resp[32..40]).value, Decode(resp[40..48]).value, t4);
            0 <= sample.delay - exact.delay <= 1 && 0 <= sample.offset - exact.offset <= 1
  {
    hide Decode, Encode, ComputeOffsetDelay;
    OriginIsClose(resp[24..32], t1);
    var used := OriginUsed(Decode(resp[24..32]).value, t1);
    EarlyOrigin(t1, Decode(resp[32..40]).value, Decode(resp[40..48]).value, t4, t1 - used);
  }

  /** A response by a server that stamps its own clock honestly. */
  ghost predicate HonestReply(resp: seq<Byte>, x: Exchange)
    requires |resp| == NTP_PACKET_LEN
  {
    && x.Causal()
    && 0 <= x.g1 + x.local && 0 <= x.g4 + x.local && InEra(x.g1 + x.local)
    && 0 <= x.g2 + x.remote && InEra(x.g2 + x.remote) && 0 <= x.g3 + x.remote && InEra(x.g3 + x.remote)
    && (resp[24..32] == Encode(x.g1 + x.local) || resp[24..32] == Zeros())
    && resp[32..40] == Encode(x.g2 + x.remote)
    && resp[40..48] == Encode(x.g3 + x.remote)
  }

  lemma QuantisedStamps(x: Exchange, t1: int, t2: int, t3: int, t4: int)
    requires x.Causal() && t4 == x.g4 + x.local
    requires x.g1 + x.local - 1 <= t1 <= x.g1 + x.local
    requires x.g2 + x.remote - 1 <= t2 <= x.g2 + x.remote
    requires x.g3 + x.remote - 1 <= t3 <= x.g3 + x.remote
    ensures var c := ComputeOffsetDelay(t1, t2, t3, t4);
            && x.PathDelay() - 1 <= c.delay <= x.PathDelay() + 2
            && Near(c.offset, x.TrueOffset(), x.PathDelay() + 2)
  {
  }

  /** End to end over the wire format: the polled offset is within half the path delay, plus
      one and a half nanoseconds, of the true clock offset. */
  lemma PollNear(resp: seq<Byte>, x: Exchange)
    requires |resp| == 48 && HonestReply(resp, x)
    ensures var sample := PollResult(resp, 48, x.g1 + x.local, x.g4 + x.local).value;
            && Near(sample.offset, x.TrueOffset(), x.PathDelay() + 2)
            && x.PathDelay() - 1 <= sample.delay <= x.PathDelay() + 2
  {
    hide Decode, Encode, ComputeOffsetDelay, Loss, Near;
    OriginIsClose(resp[24..32], x.g1 + x.local);
    RoundTrip(x.g2 + x.remote);
    RoundTrip(x.g3 + x.remote);
    LossBound((x.g2 + x.remote) % NS_PER_SEC);
    LossBound((x.g3 + x.remote) % NS_PER_SEC);
    QuantisedStamps(x, OriginUsed(Decode(resp[24..32]).value, x.g1 + x.local),
                    Decode(resp[32..40]).value, Decode(resp[40..48]).value, x.g4 + x.local);
  }

  /** The same with the rest of the sample: it is stamped with the local time of arrival and
      carries the server's stratum and its time of answering, up to a nanosecond. */
  lemma PollAccuracy(resp: seq<Byte>, x: Exchange)
    requires |resp| == 48 && HonestReply(resp, x)
    ensures var sample := PollResult(resp, 48, x.g1 + x.local, x.g4 + x.local).value;
            && Near(sample.offset, x.TrueOffset(), x.PathDelay() + 2)
            && x.PathDelay() - 1 <= sample.delay <= x.PathDelay() + 2
            && sample.timestamp == x.g4 + x.local && sample.stratum == resp[1]
            && x.g3 + x.remote - 1 <= sample.remoteTime <= x.g3 + x.remote
  {
    hide Decode, Encode, PollResult, Loss, Near;
    PollNear(resp, x);
    PollFields(resp, 48, x.g1 + x.local, x.g4 + x.local);
    RoundTrip(x.g3 + x.remote);
    LossBound((x.g3 + x.remote) % NS_PER_SEC);
  }

  // ----- the poller's running state

  datatype Last = Last(offset: int, ts: nat)

  datatype PollerState = PollerState(delay: Option<int>, last: Option<Last>)

  datatype Reading = Reading(jitter: nat, driftPpm: real)

  function DriftPpm(last: Option<Last>, s: NtpSample): real {
    if last.Some? && s.timestamp > last.value.ts then
      (s.offset - last.value.offset) as real / (s.timestamp - last.value.ts) as real * 1000000.0
    else 0.0
  }

  function Read(st: PollerState, s: NtpSample): Reading {
    Reading(Next(st.delay, s.delay), DriftPpm(st.last, s))
  }

  function Advance(s: NtpSample): PollerState {
    PollerState(Some(s.delay), Some(Last(s.offset, s.timestamp)))
  }

  class NtpPoller {
    var lastDelay: Option<int>
    var lastOffset: Option<int>
    var lastTs: Option<nat>
    ghost var past: seq<NtpSample>

    /** The poller remembers what the samples so far leave. */
    ghost predicate Valid()
      reads this
    {
      lastOffset.Some? == lastTs.Some? && View() == StateAfter(past)
    }

    function View(): PollerState
      requires lastOffset.Some? == lastTs.Some?
      reads this
    {
      PollerState(lastDelay, if lastOffset.Some? then Some(Last(lastOffset.value, lastTs.value)) else None)
    }

    constructor ()
      ensures Valid() && View() == PollerState(None, None) && past == []
    {
      past := [];
      lastDelay, lastOffset, lastTs := None, None, None;
    }

    method Observe(sample: NtpSample) returns (r: Reading)
      requires Valid()
      modifies this
      ensures Valid() && View() == Advance(sample) && past == old(past) + [sample]
      ensures |Readings(past)| == |past| && Readings(past)[|old(past)|] == r
      ensures r == Read(old(View()), sample)
      ensures lastDelay == Some(sample.delay) && lastOffset == Some(sample.offset) && lastTs == Some(sample.timestamp)
      ensures old(lastTs).None? || sample.timestamp <= old(lastTs).value ==> r.driftPpm == 0.0
      ensures old(lastTs).Some? && sample.timestamp > old(lastTs).value ==>
                r.driftPpm * (sample.timestamp - old(lastTs).value) as real ==
                1000000.0 * (sample.offset - old(lastOffset).value) as real
    {
      var jitter := Next(lastDelay, sample.delay);
      lastDelay := Some(sample.delay);
      var driftPpm := 0.0;
      if lastOffset.Some? && lastTs.Some? && sample.timestamp > lastTs.value {
        var deltaOffset := (sample.offset - lastOffset.value) as real;
        var deltaTime := (sample.timestamp - lastTs.value) as real;
        if deltaTime > 0.0 {
          driftPpm := deltaOffset / deltaTime * 1000000.0;
          DriftTimesTime(deltaOffset, deltaTime);
        }
      }
      lastOffset, lastTs := Some(sample.offset), Some(sample.timestamp);
      r := Reading(jitter, driftPpm);
      ReadingsNext(past, sample);
      past := past + [sample];
    }
  }

  // ----- runs of the poller

  function Delays(samples: seq<NtpSample>): (r: seq<int>)
    ensures |r| == |samples|
  {
    if |samples| == 0 then [] else Delays(samples[..|samples| - 1]) + [samples[|samples| - 1].delay]
  }

  function StateAfter(samples: seq<NtpSample>): PollerState {
    if |samples| == 0 then PollerState(None, None) else Advance(samples[|samples| - 1])
  }

  function Readings(samples: seq<NtpSample>): seq<Reading> {
    if |samples| == 0 then []
    else
      var before := samples[..|samples| - 1];
      Readings(before) + [Read(StateAfter(before), samples[|samples| - 1])]
  }

  function Jitters(readings: seq<Reading>): (r: seq<nat>)
    ensures |r| == |readings|
  {
    if |readings| == 0 then [] else Jitters(readings[..|readings| - 1]) + [readings[|readings| - 1].jitter]
  }

  lemma {:induction false} PollerJitter(samples: seq<NtpSample>)
    ensures Jitters(Readings(samples)) == Differences(Delays(samples))
    ensures StateAfter(samples).delay == LastOf(Delays(samples))
  {
    if |samples| > 0 {
      var before, s := samples[..|samples| - 1], samples[|samples| - 1];
      PollerJitter(before);
      Append(Delays(before), s.delay);
      assert Readings(samples)[..|Readings(before)|] == Readings(before);
    }
  }

  /** Each drift reading times the time it covers, summed over the run. */
  function Integrated(samples: seq<NtpSample>): real {
    if |samples| <= 1 then 0.0
    else
      var before, s := samples[..|samples| - 1], samples[|samples| - 1];
      Integrated(before)
      + Read(StateAfter(before), s).driftPpm * (s.timestamp - before[|before| - 1].timestamp) as real
  }

  lemma DriftTimesTime(o: real, t: real)
    requires t > 0.0
    ensures o / t * 1000000.0 * t == o * 1000000.0
  {
    assert o / t * t == o;
  }

  /** Every drift reading of every run: zero at first and whenever time has not advanced,
      otherwise the change of the offset per elapsed time, times a million. */
  lemma {:induction false} DriftAt(samples: seq<NtpSample>, i: nat)
    requires i < |samples|
    ensures |Readings(samples)| == |samples|
    ensures i == 0 || samples[i].timestamp <= samples[i - 1].timestamp ==> Readings(samples)[i].driftPpm == 0.0
    ensures i > 0 && samples[i].timestamp > samples[i - 1].timestamp ==>
              Readings(samples)[i].driftPpm * (samples[i].timestamp - samples[i - 1].timestamp) as real ==
              1000000.0 * (samples[i].offset - samples[i - 1].offset) as real
  {
    var before := samples[..|samples| - 1];
    ReadingsLength(before);
    if i < |before| {
      DriftAt(before, i);
    } else if i > 0 && samples[i].timestamp > samples[i - 1].timestamp {
      DriftTimesTime((samples[i].offset - samples[i - 1].offset) as real,
                     (samples[i].timestamp - samples[i - 1].timestamp) as real);
    }
  }

  lemma ReadingsNext(samples: seq<NtpSample>, s: NtpSample)
    ensures |Readings(samples)| == |samples|
    ensures Readings(samples + [s]) == Readings(samples) + [Read(StateAfter(samples), s)]
  {
    ReadingsLength(samples);
    assert (samples + [s])[..|samples|] == samples;
  }

  lemma {:induction false} ReadingsLength(samples: seq<NtpSample>)
    ensures |Readings(samples)| == |samples|
  {
    if |samples| > 0 {
      ReadingsLength(samples[..|samples| - 1]);
    }
  }

  /** While timestamps advance, the drift readings integrate to the net change of the offset. */
  lemma {:induction false} DriftIntegrates(samples: seq<NtpSample>)
    requires |samples| > 0
    requires forall i :: 0 < i < |samples| ==> samples[i - 1].timestamp < samples[i].timestamp
    ensures Integrated(samples) == (samples[|samples| - 1].offset - samples[0].offset) as real * 1000000.0
  {
    if |samples| > 1 {
      var before, s := samples[..|samples| - 1], samples[|samples| - 1];
      var p := before[|before| - 1];
      DriftIntegrates(before);
      DriftTimesTime((s.offset - p.offset) as real, (s.timestamp - p.timestamp) as real);
    }
  }
}
