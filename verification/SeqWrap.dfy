/** The genuine-exchange invariant holds for exactly as many allocations as the 32-bit
    sequence counter has values: one more, and a delayed response to an old request can be
    accepted for a new one with the same number. */
module SeqWrap {
  import opened TimeCalc
  import opened Protocol
  import opened Network
  import opened ProtocolSafety

  /** Every sample under a trusted id, of every node that has allocated at most `limit` numbers,
      is genuine. */
  ghost predicate AllGenuine(limit: nat) {
    forall topo: Topology, start: int, steps: seq<Step>, s: System, n: nat, i: nat ::
      Reaches(topo, start, steps, s) && n in topo && n in s.nodes && i < |s.nodes[n].samples|
      && Trusted(topo, n, s.nodes[n].samples[i].peer) && s.nodes[n].allocs <= limit
      ==> Genuine(topo, s.net, n, s.nodes[n].samples[i])
  }

  // ----- the run: node 0 asks node 1, both clocks exact

  function Two(): Topology {
    map[0 := NodeCfg(0, 0, Honest), 1 := NodeCfg(1, 0, Honest)]
  }

  function Target(): PeerEntry { PeerEntry(1, 1) }

  function Question(t1: int): TimeRequest { TimeRequest(WIRE_VERSION, 1, 0, t1) }

  function Answer(): TimeResponse { TimeResponse(WIRE_VERSION, 1, 1, 0, 0, 0) }

  /** Node 0 idle with request number one pending since time zero, the answer on the wire. */
  ghost predicate Stale(s: System, allocs: nat) {
    && s.nodes.Keys == {0, 1}
    && s.nodes[0].tx == TxIdle && s.nodes[0].rx == RxIdle && |s.nodes[0].samples| == 0
    && s.nodes[0].allocs == allocs && s.nodes[0].next == (allocs + 1) % SEQ_SPACE
    && s.nodes[0].runtime == map[]
    && Packet(1, 0, Resp(Answer())) in s.net
  }

  lemma FirstExchange() returns (steps: seq<Step>, s: System)
    ensures Reaches(Two(), 0, steps, s) && s.now == 0 && Stale(s, 1)
    ensures s.nodes[0].pending == map[1 := PendingRequest(1, 0, 0)]
  {
    var topo := Two();
    hide Exec;
    steps, s := Begin(topo, 0);
    steps, s := Then(topo, 0, steps, s, StampStep(0, Target(), true));
    steps, s := Then(topo, 0, steps, s, SendStep(0, true));
    assert s.net == {Packet(0, 1, Req(Question(0)))};
    steps, s := Then(topo, 0, steps, s, BeginServeStep(1, 0, Question(0)));
    steps, s := Then(topo, 0, steps, s, FinishServeStep(1));
    steps, s := Then(topo, 0, steps, s, InsertStep(0));
  }

  /** Failing clock reads use up numbers and change nothing else. */
  lemma {:induction false} Burn(steps: seq<Step>, s: System, allocs: nat, k: nat)
    returns (steps': seq<Step>, s': System)
    requires Reaches(Two(), 0, steps, s) && Stale(s, allocs)
    ensures Reaches(Two(), 0, steps', s') && Stale(s', allocs + k) && s'.now == s.now
    decreases k
  {
    if k == 0 {
      steps', s' := steps, s;
    } else {
      hide Exec;
      var step := StampStep(0, Target(), false);
      WrapStep(allocs);
      var mid;
      steps', mid := Then(Two(), 0, steps, s, step);
      assert Stale(mid, allocs + 1);
      steps', s' := Burn(steps', mid, allocs + 1, k - 1);
    }
  }

  /** After the wrap the number is used again and the old answer is taken for the new question. */
  lemma SecondExchange(steps: seq<Step>, s: System) returns (steps': seq<Step>, s': System)
    requires Reaches(Two(), 0, steps, s) && Stale(s, SEQ_SPACE) && s.now == 0
    ensures Reaches(Two(), 0, steps', s') && s'.nodes.Keys == {0, 1} && s'.nodes[0].allocs == SEQ_SPACE + 1
    ensures s'.nodes[0].samples == [Sample(1, 1, 1, 0, 10, 0, 0, 10, -10, 0, 0)]
  {
    hide Exec;
    var topo := Two();
    assert s.nodes[0].next == 1;
    steps', s' := Then(topo, 0, steps, s, Tick(10));
    steps', s' := Then(topo, 0, steps', s', StampStep(0, Target(), true));
    steps', s' := Then(topo, 0, steps', s', SendStep(0, true));
    steps', s' := Then(topo, 0, steps', s', InsertStep(0));
    assert s'.nodes[0].pending[1] == PendingRequest(1, 10, 10);
    steps', s' := Then(topo, 0, steps', s', ReceiveStep(0, 1, Answer()));
    steps', s' := Then(topo, 0, steps', s', CompleteStep(0));
    assert ComputeOffsetDelay(10, 0, 0, 10) == PairCalc(0, -10);
  }

  /** The failing run: a sample with zero delay whose offset is wrong by the age of the answer. */
  lemma WrapBreaksGenuineness() returns (steps: seq<Step>, s: System)
    ensures Reaches(Two(), 0, steps, s) && s.nodes.Keys == {0, 1} && s.nodes[0].allocs == SEQ_SPACE + 1
    ensures |s.nodes[0].samples| == 1 && s.nodes[0].samples[0].peer == 1
    ensures !Genuine(Two(), s.net, 0, s.nodes[0].samples[0])
    ensures !Near(s.nodes[0].samples[0].offset, Two()[1].clock - Two()[0].clock, s.nodes[0].samples[0].delay)
  {
    steps, s := FirstExchange();
    steps, s := Burn(steps, s, 1, SEQ_SPACE - 1);
    steps, s := SecondExchange(steps, s);
    hide Exec;
    assert !ExchangeOf(Two(), 0, s.nodes[0].samples[0]).Causal();
  }

  /** The exact condition. */
  lemma GenuineExactlyBeforeWrap(limit: nat)
    ensures AllGenuine(limit) <==> limit <= 0x1_0000_0000
  {
    if limit <= SEQ_SPACE {
      hide Reaches, Genuine, Trusted;
      forall topo: Topology, start: int, steps: seq<Step>, s: System, n: nat, i: nat
        | Reaches(topo, start, steps, s) && n in topo && n in s.nodes && i < |s.nodes[n].samples|
          && Trusted(topo, n, s.nodes[n].samples[i].peer) && s.nodes[n].allocs <= limit
        ensures Genuine(topo, s.net, n, s.nodes[n].samples[i])
      {
        SamplesAreGenuine(topo, start, steps, s, n, i);
      }
    } else {
      var steps, s := WrapBreaksGenuineness();
      assert 0 in Two() && Trusted(Two(), 0, 1);
      hide Reaches, Genuine, Trusted;
    }
  }
}
