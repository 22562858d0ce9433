/** Whose answers a node of src/net/node.rs can rely on.  The code checks the sequence number
    and the server id of a response, lines 288-302, but neither the address it comes from nor
    the echo of t1; this module says exactly which faulty nodes that lets through. */
module Trust {
  import opened TimeCalc
  import opened Protocol
  import opened Network
  import opened ProtocolSafety

  /** Every sample node n records under the id, in every run in which its counter does not
      wrap and whatever peers are configured, is genuine. */
  ghost predicate AlwaysGenuine(topo: Topology, n: nat, id: nat)
    requires n in topo
  {
    forall start: int, steps: seq<Step>, s: System, i: nat ::
      Reaches(topo, start, steps, s) && n in s.nodes && i < |s.nodes[n].samples|
      && s.nodes[n].samples[i].peer == id && s.nodes[n].allocs <= SEQ_SPACE
      ==> Genuine(topo, s.net, n, s.nodes[n].samples[i])
  }

  /** Every response node n accepts under the id, in every such run, echoes the t1 of the entry
      it is taken to answer. */
  ghost predicate AlwaysEchoes(topo: Topology, n: nat, id: nat)
    requires n in topo
  {
    forall start: int, steps: seq<Step>, s: System, i: nat ::
      Reaches(topo, start, steps, s) && n in s.nodes && i < |s.nodes[n].samples|
      && s.nodes[n].samples[i].peer == id && s.nodes[n].allocs <= SEQ_SPACE
      ==> s.nodes[n].samples[i].echo == s.nodes[n].samples[i].t1
  }

  /** A run that ends with one sample of node n, under the id, that is not genuine and whose
      response echoes another t1. */
  ghost predicate Deceived(topo: Topology, n: nat, id: nat, steps: seq<Step>, s: System)
    requires n in topo
  {
    && Reaches(topo, 0, steps, s) && n in s.nodes && s.nodes[n].allocs == 1 && |s.nodes[n].samples| == 1
    && s.nodes[n].samples[0].peer == id && !Genuine(topo, s.net, n, s.nodes[n].samples[0])
    && s.nodes[n].samples[0].echo != s.nodes[n].samples[0].t1
  }

  /** Node n idle, with nothing allocated yet. */
  ghost predicate Fresh(s: System, n: nat) {
    n in s.nodes && s.nodes[n] == INITIAL
  }

  /** Node n has asked for the id at the address, with number one stamped t1. */
  ghost predicate Asked(s: System, n: nat, id: nat, t1: int) {
    && n in s.nodes && s.nodes[n].rx.RxIdle? && s.nodes[n].allocs == 1 && s.nodes[n].samples == []
    && s.nodes[n].pending.Keys == {1} && s.nodes[n].pending[1].peerId == id && s.nodes[n].pending[1].t1 == t1
    && s.nodes[n].runtime == map[]
  }

  lemma Ask(topo: Topology, n: nat, peer: PeerEntry, steps: seq<Step>, s: System)
    returns (steps': seq<Step>, s': System)
    requires n in topo && peer.id != topo[n].id && Reaches(topo, 0, steps, s) && Fresh(s, n)
    ensures Reaches(topo, 0, steps', s') && s.net <= s'.net && s'.now == s.now && s'.nodes.Keys == s.nodes.Keys
    ensures Asked(s', n, peer.id, Clock(topo, n, s.now))
  {
    hide Exec, Reaches;
    steps', s' := Then(topo, 0, steps, s, StampStep(n, peer, true));
    steps', s' := Then(topo, 0, steps', s', SendStep(n, true));
    steps', s' := Then(topo, 0, steps', s', InsertStep(n));
  }

  /** A response under the id with number one is accepted, whoever sent it. */
  lemma Accept(topo: Topology, n: nat, src: nat, r: TimeResponse, t1: int, steps: seq<Step>, s: System)
    returns (steps': seq<Step>, s': System)
    requires n in topo && Reaches(topo, 0, steps, s) && Asked(s, n, r.serverId, t1)
    requires r.ver == WIRE_VERSION && r.seqNo == 1 && Packet(src, n, Resp(r)) in s.net
    ensures Reaches(topo, 0, steps', s') && n in s'.nodes && s'.nodes[n].allocs == 1 && |s'.nodes[n].samples| == 1
    ensures var x := s'.nodes[n].samples[0];
            && x.peer == r.serverId && x.src == src && x.echo == r.t1Echo
            && x.t1 == t1 && x.t2 == r.t2 && x.t3 == r.t3
  {
    hide Exec, Reaches, ComputeOffsetDelay;
    steps', s' := Then(topo, 0, steps, s, ReceiveStep(n, src, r));
    steps', s' := Then(topo, 0, steps', s', CompleteStep(n));
  }

  /** The first failing run: a faulty node answers the next sequential number under the id. */
  lemma LiarAnswers(topo: Topology, n: nat, id: nat, m: nat) returns (steps: seq<Step>, s: System)
    requires n in topo && id != topo[n].id && m in topo && topo[m].conduct.Faulty? && MayAnswer(topo[m], id)
    ensures Deceived(topo, n, id, steps, s)
  {
    hide Exec;
    steps, s := Begin(topo, 0);
    steps, s := Ask(topo, n, PeerEntry(id, m), steps, s);
    var lie := TimeResponse(WIRE_VERSION, 1, id, Clock(topo, n, 0) + 1, 1, 0);
    steps, s := Then(topo, 0, steps, s, ForgeStep(m, Packet(m, n, Resp(lie))));
    steps, s := Accept(topo, n, m, lie, Clock(topo, n, 0), steps, s);
    assert !ExchangeOf(topo, n, s.nodes[n].samples[0]).Causal();
  }

  /** The second one: a faulty node asks an honest server early in the name of node n, and the
      honest answer is taken for the answer to the request node n sends later. */
  lemma LiarAsks(topo: Topology, n: nat, server: nat, m: nat) returns (steps: seq<Step>, s: System)
    requires n in topo && server in topo && topo[server].id != topo[n].id
    requires m in topo && topo[m].conduct.Faulty? && MayAsk(topo, m, n)
    ensures Deceived(topo, n, topo[server].id, steps, s)
  {
    hide Exec;
    var lie := TimeRequest(WIRE_VERSION, 1, 0, Clock(topo, n, 1) + 1);
    var id, t := topo[server].id, Clock(topo, server, 0);
    steps, s := Begin(topo, 0);
    steps, s := Then(topo, 0, steps, s, ForgeStep(m, Packet(n, server, Req(lie))));
    steps, s := Then(topo, 0, steps, s, BeginServeStep(server, n, lie));
    steps, s := Then(topo, 0, steps, s, FinishServeStep(server));
    var answer := TimeResponse(WIRE_VERSION, 1, id, lie.t1, t, t);
    assert Packet(server, n, Resp(answer)) in s.net;
    steps, s := Then(topo, 0, steps, s, Tick(1));
    steps, s := Ask(topo, n, PeerEntry(id, server), steps, s);
    steps, s := Accept(topo, n, server, answer, Clock(topo, n, 1), steps, s);
    assert !ExchangeOf(topo, n, s.nodes[n].samples[0]).Causal();
  }

  /** The exact condition, below the wrap: node n's samples under the id of another node are
      genuine in every run if and only if no faulty node may answer under that id and, when the
      id is announced at all, no faulty node sends requests from n's address. */
  lemma GenuineExactlyWhenTrusted(topo: Topology, n: nat, id: nat)
    requires n in topo && id != topo[n].id
    ensures AlwaysGenuine(topo, n, id) <==> Trusted(topo, n, id)
  {
    if Trusted(topo, n, id) {
      hide Reaches, Genuine, Trusted;
      forall start: int, steps: seq<Step>, s: System, i: nat
        | Reaches(topo, start, steps, s) && n in s.nodes && i < |s.nodes[n].samples|
          && s.nodes[n].samples[i].peer == id && s.nodes[n].allocs <= SEQ_SPACE
        ensures Genuine(topo, s.net, n, s.nodes[n].samples[i])
      {
        SamplesAreGenuine(topo, start, steps, s, n, i);
      }
    } else {
      var steps, s := Deceive(topo, n, id);
      assert Deceived(topo, n, id, steps, s);
      hide Reaches, Genuine;
      assert 0 < |s.nodes[n].samples|;
    }
  }

  /** The same condition decides whether comparing the echo with the pending t1, which the code
      does not do, would ever reject a response below the wrap. */
  lemma EchoesExactlyWhenTrusted(topo: Topology, n: nat, id: nat)
    requires n in topo && id != topo[n].id
    ensures AlwaysEchoes(topo, n, id) <==> Trusted(topo, n, id)
  {
    if Trusted(topo, n, id) {
      hide Reaches, Trusted;
      forall start: int, steps: seq<Step>, s: System, i: nat
        | Reaches(topo, start, steps, s) && n in s.nodes && i < |s.nodes[n].samples|
          && s.nodes[n].samples[i].peer == id && s.nodes[n].allocs <= SEQ_SPACE
        ensures s.nodes[n].samples[i].echo == s.nodes[n].samples[i].t1
      {
        hide Inv, AllNumbered;
        InvAlways(topo, start, steps, s);
        NumberedAlways(topo, start, steps, s);
        EchoMatches(topo, s, n, i);
      }
    } else {
      var steps, s := Deceive(topo, n, id);
      assert Deceived(topo, n, id, steps, s);
      hide Reaches, Genuine;
      assert 0 < |s.nodes[n].samples|;
    }
  }

  /** In particular, for a node in whose name nobody else asks, only answers matter. */
  lemma GenuineExactlyWhenProtected(topo: Topology, n: nat, id: nat)
    requires Guarded(topo, n) && id != topo[n].id
    ensures AlwaysGenuine(topo, n, id) <==> Protected(topo, id)
  {
    hide AlwaysGenuine, Protected;
    GenuineExactlyWhenTrusted(topo, n, id);
  }

  lemma Deceive(topo: Topology, n: nat, id: nat) returns (steps: seq<Step>, s: System)
    requires n in topo && id != topo[n].id && !Trusted(topo, n, id)
    ensures Deceived(topo, n, id, steps, s)
  {
    hide Deceived;
    if !Protected(topo, id) {
      var m :| m in topo && MayAnswer(topo[m], id) && topo[m].conduct.Faulty?;
      steps, s := LiarAnswers(topo, n, id, m);
    } else {
      var server :| server in topo && topo[server].id == id;
      var m :| m in topo && topo[m].conduct.Faulty? && MayAsk(topo, m, n);
      steps, s := LiarAsks(topo, n, server, m);
    }
  }
}
