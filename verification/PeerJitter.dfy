/** The jitters a node records for one peer are the first differences of that peer's own
    accepted delays, whatever else is interleaved. */
module PeerJitter {
  import opened Wrappers
  import opened Jitter
  import opened Protocol
  import opened Network

  function DelaysOf(samples: seq<Sample>, peer: nat): seq<int> {
    if |samples| == 0 then []
    else
      var x := samples[|samples| - 1];
      DelaysOf(samples[..|samples| - 1], peer) + if x.peer == peer then [x.delay] else []
  }

  function JittersOf(samples: seq<Sample>, peer: nat): seq<nat> {
    if |samples| == 0 then []
    else
      var x := samples[|samples| - 1];
      JittersOf(samples[..|samples| - 1], peer) + if x.peer == peer then [x.jitter] else []
  }

  function RuntimeOf(st: NodeState, peer: nat): Option<PeerRuntime> {
    if peer in st.runtime then Some(st.runtime[peer]) else None
  }

  /** The last accepted exchange with the peer. */
  function LastRecord(samples: seq<Sample>, peer: nat): Option<PeerRuntime> {
    if |samples| == 0 then None
    else
      var x := samples[|samples| - 1];
      if x.peer == peer then Some(PeerRuntime(x.delay, x.offset, x.jitter))
      else LastRecord(samples[..|samples| - 1], peer)
  }

  ghost predicate PeerOk(st: NodeState, peer: nat) {
    && RuntimeOf(st, peer) == LastRecord(st.samples, peer)
    && LastDelay(st, peer) == LastOf(DelaysOf(st.samples, peer))
    && JittersOf(st.samples, peer) == Differences(DelaysOf(st.samples, peer))
  }

  ghost predicate JitterOk(st: NodeState) {
    forall peer :: PeerOk(st, peer)
  }

  lemma SeriesAppend(samples: seq<Sample>, x: Sample, peer: nat)
    ensures DelaysOf(samples + [x], peer) ==
        if x.peer == peer then DelaysOf(samples, peer) + [x.delay] else DelaysOf(samples, peer)
    ensures LastRecord(samples + [x], peer) ==
            if x.peer == peer then Some(PeerRuntime(x.delay, x.offset, x.jitter)) else LastRecord(samples, peer)
    ensures JittersOf(samples + [x], peer) ==
        if x.peer == peer then JittersOf(samples, peer) + [x.jitter] else JittersOf(samples, peer)
  {
  }

  lemma RecordKeepsPeer(st: NodeState, st': NodeState, x: Sample, peer: nat)
    requires PeerOk(st, peer) && st'.samples == st.samples + [x] && x.jitter == Next(LastDelay(st, x.peer), x.delay)
    requires RuntimeOf(st', peer) ==
             if peer == x.peer then Some(PeerRuntime(x.delay, x.offset, x.jitter)) else RuntimeOf(st, peer)
    ensures PeerOk(st', peer)
  {
    hide DelaysOf, JittersOf, Differences, LastOf, LastRecord;
    SeriesAppend(st.samples, x, peer);
    Append(DelaysOf(st.samples, peer), x.delay);
  }

  lemma UnrecordedKeepsJitter(st: NodeState, st': NodeState)
    requires JitterOk(st) && st'.samples == st.samples && st'.runtime == st.runtime
    ensures JitterOk(st')
  {
    forall peer ensures PeerOk(st', peer) {
      assert PeerOk(st, peer);
    }
  }

  lemma CompleteKeepsJitter(st: NodeState)
    requires JitterOk(st) && st.rx.Received?
    ensures JitterOk(Complete(st))
  {
    var st' := Complete(st);
    var k := st.rx.resp.seqNo;
    if k in st.pending && st.pending[k].peerId == st.rx.resp.serverId {
      hide PeerOk;
      forall peer ensures PeerOk(st', peer) {
        assert PeerOk(st, peer);
        RecordKeepsPeer(st, st', SampleOf(st, st.pending[k]), peer);
      }
    } else {
      UnrecordedKeepsJitter(st, st');
    }
  }

  ghost predicate AllJitterOk(s: System) {
    forall n :: n in s.nodes ==> JitterOk(s.nodes[n])
  }

  lemma StepKeepsJitter(topo: Topology, s: System, step: Step)
    requires AllJitterOk(s) && Enabled(topo, s, step)
    ensures AllJitterOk(Apply(topo, s, step))
  {
    if step.CompleteStep? {
      CompleteKeepsJitter(s.nodes[step.n]);
    } else if !step.Tick? {
      UnrecordedKeepsJitter(s.nodes[step.n], Apply(topo, s, step).nodes[step.n]);
    }
    hide Complete, JitterOk;
  }

  lemma {:induction false} JitterAlways(topo: Topology, start: int, steps: seq<Step>, s: System)
    requires Reaches(topo, start, steps, s)
    ensures AllJitterOk(s)
  {
    hide Apply, Enabled;
    if |steps| > 0 {
      var mid := Exec(topo, Init(topo, start), steps[..|steps| - 1]).value;
      JitterAlways(topo, start, steps[..|steps| - 1], mid);
      StepKeepsJitter(topo, mid, steps[|steps| - 1]);
    }
  }

  /** In every reachable state the runtime entry of a peer is its last accepted exchange, and
      its recorded jitters are, per peer, zero first, then absolute consecutive differences of
      its own delays, whose total is at least the net change. */
  lemma JitterIsFirstDifference(topo: Topology, start: int, steps: seq<Step>, s: System, n: nat, peer: nat)
    requires Reaches(topo, start, steps, s) && n in s.nodes
    ensures var delays := DelaysOf(s.nodes[n].samples, peer);
            && RuntimeOf(s.nodes[n], peer) == LastRecord(s.nodes[n].samples, peer)
            && JittersOf(s.nodes[n].samples, peer) == Differences(delays)
            && (|delays| > 0 ==>
                  && Total(JittersOf(s.nodes[n].samples, peer)) >= delays[|delays| - 1] - delays[0]
                  && Total(JittersOf(s.nodes[n].samples, peer)) >= delays[0] - delays[|delays| - 1])
  {
    JitterAlways(topo, start, steps, s);
    assert JitterOk(s.nodes[n]) && PeerOk(s.nodes[n], peer);
    if |DelaysOf(s.nodes[n].samples, peer)| > 0 {
      TotalCoversSpan(DelaysOf(s.nodes[n].samples, peer));
    }
  }

  // ----- on the samples themselves

  ghost predicate PeerSeries(samples: seq<Sample>, peer: nat) {
    JittersOf(samples, peer) == Differences(DelaysOf(samples, peer))
  }

  lemma {:induction false} SeriesLengths(samples: seq<Sample>, peer: nat)
    ensures |JittersOf(samples, peer)| == |DelaysOf(samples, peer)|
  {
    if |samples| > 0 {
      SeriesLengths(samples[..|samples| - 1], peer);
    }
  }

  lemma LastJitter(samples: seq<Sample>, x: Sample)
    requires PeerSeries(samples + [x], x.peer)
    ensures PeerSeries(samples, x.peer) && x.jitter == Next(LastOf(DelaysOf(samples, x.peer)), x.delay)
  {
    SeriesAppend(samples, x, x.peer);
    SeriesLengths(samples, x.peer);
    hide DelaysOf, JittersOf, Next;
    Append(DelaysOf(samples, x.peer), x.delay);
    var jitters, delays := JittersOf(samples, x.peer), DelaysOf(samples, x.peer);
    assert (jitters + [x.jitter])[..|jitters|] == jitters;
    assert (Differences(delays) + [Next(LastOf(delays), x.delay)])[..|delays|] == Differences(delays);
  }

  lemma ShorterSeries(samples: seq<Sample>, x: Sample, peer: nat)
    requires PeerSeries(samples + [x], peer)
    ensures PeerSeries(samples, peer)
  {
    hide DelaysOf, JittersOf, Differences;
    if x.peer == peer {
      LastJitter(samples, x);
    } else {
      SeriesAppend(samples, x, peer);
    }
  }

  /** The delay of the last sample of the peer, which is sample i if any. */
  lemma {:induction false} LastDelayOf(samples: seq<Sample>, peer: nat, i: nat)
    requires forall k :: i < k < |samples| ==> samples[k].peer != peer
    requires i < |samples| ==> samples[i].peer == peer
    ensures i < |samples| ==> LastOf(DelaysOf(samples, peer)) == Some(samples[i].delay)
    ensures (forall k :: 0 <= k < |samples| ==> samples[k].peer != peer) ==> DelaysOf(samples, peer) == []
  {
    if |samples| > 0 && i != |samples| - 1 {
      LastDelayOf(samples[..|samples| - 1], peer, i);
    } else if |samples| > 0 {
      assert samples[i].peer == peer;
    }
  }

  lemma {:induction false} JitterAt(samples: seq<Sample>, j: nat)
    requires j < |samples| && PeerSeries(samples, samples[j].peer)
    ensures samples[j].jitter == Next(LastOf(DelaysOf(samples[..j], samples[j].peer)), samples[j].delay)
  {
    hide DelaysOf, PeerSeries, Next;
    var before, x := samples[..|samples| - 1], samples[|samples| - 1];
    assert before + [x] == samples;
    if j == |samples| - 1 {
      LastJitter(before, x);
    } else {
      ShorterSeries(before, x, samples[j].peer);
      JitterAt(before, j);
      assert before[..j] == samples[..j];
    }
  }

  /** In every reachable state the first sample of a peer has jitter zero, and every other one
      the absolute difference between its delay and that of the sample of the peer before it. */
  lemma ConsecutiveJitter(topo: Topology, start: int, steps: seq<Step>, s: System, n: nat, j: nat)
    requires Reaches(topo, start, steps, s) && n in s.nodes && j < |s.nodes[n].samples|
    ensures var samples, x := s.nodes[n].samples, s.nodes[n].samples[j];
            && ((forall k :: 0 <= k < j ==> samples[k].peer != x.peer) ==> x.jitter == 0)
            && forall i :: 0 <= i < j && samples[i].peer == x.peer
                 && (forall k :: i < k < j ==> samples[k].peer != x.peer)
                 ==> x.jitter == if x.delay < samples[i].delay then samples[i].delay - x.delay
                                 else x.delay - samples[i].delay
  {
    var samples, x := s.nodes[n].samples, s.nodes[n].samples[j];
    JitterAlways(topo, start, steps, s);
    assert JitterOk(s.nodes[n]) && PeerOk(s.nodes[n], x.peer);
    hide Reaches, DelaysOf, JittersOf, PeerOk;
    JitterAt(samples, j);
    LastDelayOf(samples[..j], x.peer, j);
    forall i | 0 <= i < j && samples[i].peer == x.peer && forall k :: i < k < j ==> samples[k].peer != x.peer
      ensures x.jitter == if x.delay < samples[i].delay then samples[i].delay - x.delay else x.delay - samples[i].delay
    {
      LastDelayOf(samples[..j], x.peer, i);
    }
  }
}
