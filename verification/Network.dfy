/** A network of nodes running the protocol of src/net/node.rs, some of them faulty.
    Messages, once sent, stay available for ever: delivering one never, late, twice or out of
    order models loss, delay, duplication and reordering.  Each node's clock differs from
    global time by a constant. */
module Network {
  import opened Wrappers
  import opened TimeCalc
  import opened Protocol

  /** An honest node follows the protocol.  A faulty one may also send anything else: invented
      responses under its own id and the ids it claims, from any address, and invented requests
      from its own address and the addresses it spoofs. */
  datatype Conduct = Honest | Faulty(claims: set<nat>, spoofs: set<nat>)

  /** A node as configured: the id it announces (not assumed unique), its clock offset, and
      how it behaves. */
  datatype NodeCfg = NodeCfg(id: nat, clock: int, conduct: Conduct)

  type Topology = map<nat, NodeCfg>

  datatype Packet = Packet(src: nat, dst: nat, msg: Message)

  datatype System = System(now: int, nodes: map<nat, NodeState>, net: set<Packet>)

  datatype Step =
    | Tick(dt: nat)
    | StampStep(n: nat, peer: PeerEntry, readable: bool)
    | SendStep(n: nat, ok: bool)
    | InsertStep(n: nat)
    | BeginServeStep(n: nat, client: nat, req: TimeRequest)
    | FinishServeStep(n: nat)
    | ReceiveStep(n: nat, src: nat, resp: TimeResponse)
    | CompleteStep(n: nat)
    | CleanupStep(n: nat, at: int)
    | ForgeStep(n: nat, packet: Packet)

  function Clock(topo: Topology, n: nat, now: int): int
    requires n in topo
  {
    now + topo[n].clock
  }

  function Init(topo: Topology, start: int): System {
    System(start, map n | n in topo :: INITIAL, {})
  }

  predicate MayAnswer(cfg: NodeCfg, id: nat) {
    id == cfg.id || (cfg.conduct.Faulty? && id in cfg.conduct.claims)
  }

  predicate MayAsk(topo: Topology, m: nat, address: nat)
    requires m in topo && topo[m].conduct.Faulty?
  {
    address == m || address in topo[m].conduct.spoofs
  }

  /** The messages a faulty node can put on the wire besides those of the protocol. */
  predicate MayForge(topo: Topology, m: nat, p: Packet)
    requires m in topo
  {
    && topo[m].conduct.Faulty?
    && match p.msg {
         case Req(_) => MayAsk(topo, m, p.src)
         case Resp(r) => MayAnswer(topo[m], r.serverId)
       }
  }

  /** No faulty node may answer under the id. */
  ghost predicate Protected(topo: Topology, id: nat) {
    forall m :: m in topo && MayAnswer(topo[m], id) ==> topo[m].conduct.Honest?
  }

  /** No faulty node sends requests from the address. */
  ghost predicate Guarded(topo: Topology, n: nat) {
    n in topo && forall m :: m in topo && topo[m].conduct.Faulty? ==> !MayAsk(topo, m, n)
  }

  /** Each task is sequential: the sender allocates only when idle and never for its own id,
      the receiver takes a new message only when idle. */
  predicate Enabled(topo: Topology, s: System, step: Step) {
    match step
    case Tick(dt) => true
    case StampStep(n, peer, readable) =>
      n in topo && n in s.nodes && s.nodes[n].tx.TxIdle? && peer.id != topo[n].id
    case SendStep(n, ok) => n in topo && n in s.nodes && s.nodes[n].tx.Stamped?
    case InsertStep(n) => n in topo && n in s.nodes && s.nodes[n].tx.Sent?
    case BeginServeStep(n, client, req) =>
      n in topo && n in s.nodes && s.nodes[n].rx.RxIdle? && Packet(client, n, Req(req)) in s.net
    case FinishServeStep(n) => n in topo && n in s.nodes && s.nodes[n].rx.Serving?
    case ReceiveStep(n, src, resp) =>
      n in topo && n in s.nodes && s.nodes[n].rx.RxIdle? && Packet(src, n, Resp(resp)) in s.net
    case CompleteStep(n) => n in topo && n in s.nodes && s.nodes[n].rx.Received?
    case CleanupStep(n, at) => n in topo && n in s.nodes && s.nodes[n].tx.TxIdle? && at <= s.now
    case ForgeStep(n, packet) => n in topo && n in s.nodes && MayForge(topo, n, packet)
  }

  function Update(s: System, n: nat, st: NodeState): System {
    s.(nodes := s.nodes[n := st])
  }

  function Apply(topo: Topology, s: System, step: Step): System
    requires Enabled(topo, s, step)
  {
    match step
    case Tick(dt) => s.(now := s.now + dt)
    case StampStep(n, peer, readable) =>
      Update(s, n, Stamp(s.nodes[n], peer, if readable then Some(Clock(topo, n, s.now)) else None))
    case SendStep(n, ok) =>
      var st := s.nodes[n];
      var packet := Packet(n, st.tx.peer.addr, Req(RequestOf(st, topo[n].id)));
      Update(s, n, Send(st, ok)).(net := if ok then s.net + {packet} else s.net)
    case InsertStep(n) => Update(s, n, Insert(s.nodes[n], s.now))
    case BeginServeStep(n, client, req) =>
      Update(s, n, BeginServe(s.nodes[n], client, req, Clock(topo, n, s.now)))
    case FinishServeStep(n) =>
      var st := s.nodes[n];
      var packet := Packet(n, st.rx.client, Resp(ResponseOf(st, topo[n].id, Clock(topo, n, s.now))));
      Update(s, n, FinishServe(st)).(net := s.net + {packet})
    case ReceiveStep(n, src, resp) =>
      Update(s, n, Receive(s.nodes[n], src, resp, Clock(topo, n, s.now)))
    case CompleteStep(n) => Update(s, n, Complete(s.nodes[n]))
    case CleanupStep(n, at) => Update(s, n, Cleanup(s.nodes[n], at))
    case ForgeStep(n, packet) => s.(net := s.net + {packet})
  }

  /** The state after a run, or None if some step is not possible. */
  function Exec(topo: Topology, s: System, steps: seq<Step>): Option<System> {
    if |steps| == 0 then Some(s)
    else
      match Exec(topo, s, steps[..|steps| - 1])
      case None => None
      case Some(mid) =>
        var step := steps[|steps| - 1];
        if Enabled(topo, mid, step) then Some(Apply(topo, mid, step)) else None
  }

  ghost predicate Reaches(topo: Topology, start: int, steps: seq<Step>, s: System) {
    Exec(topo, Init(topo, start), steps) == Some(s)
  }

  lemma Begin(topo: Topology, start: int) returns (steps: seq<Step>, s: System)
    ensures Reaches(topo, start, steps, s) && s == Init(topo, start) && steps == []
  {
    steps, s := [], Init(topo, start);
  }

  /** One more enabled step. */
  lemma Then(topo: Topology, start: int, steps: seq<Step>, s: System, step: Step)
    returns (steps': seq<Step>, s': System)
    requires Reaches(topo, start, steps, s) && Enabled(topo, s, step)
    ensures Reaches(topo, start, steps', s') && s' == Apply(topo, s, step) && steps' == steps + [step]
  {
    steps', s' := steps + [step], Apply(topo, s, step);
    assert steps'[..|steps|] == steps;
  }

  // ----- what holds in every reachable state

  /** Node n sent, to some address, a request numbered k stamped t1. */
  ghost predicate WasSent(topo: Topology, net: set<Packet>, n: nat, k: nat, t1: int)
    requires n in topo
  {
    exists a :: Packet(n, a, Req(TimeRequest(WIRE_VERSION, k, topo[n].id, t1))) in net
  }

  /** What is known of a message: a request from a guarded address is one of the protocol; a
      response under a protected id was sent by a node announcing it, was stamped in order,
      and, when it goes to a guarded address, answers a request from there. */
  ghost predicate PacketOk(topo: Topology, net: set<Packet>, now: int, p: Packet) {
    match p.msg
    case Req(r) =>
      Guarded(topo, p.src) ==>
        && p.src in topo && r.ver == WIRE_VERSION && r.senderId == topo[p.src].id
        && r.t1 - topo[p.src].clock <= now
    case Resp(r) =>
      Protected(topo, r.serverId) ==>
        && p.src in topo && r.serverId == topo[p.src].id
        && r.t2 - topo[p.src].clock <= r.t3 - topo[p.src].clock <= now
        && (Guarded(topo, p.dst) ==>
              && p.dst in topo
              && Packet(p.dst, p.src, Req(TimeRequest(WIRE_VERSION, r.seqNo, topo[p.dst].id, r.t1Echo))) in net
              && r.t1Echo - topo[p.dst].clock <= r.t2 - topo[p.src].clock)
  }

  ghost predicate PhasesOk(topo: Topology, net: set<Packet>, now: int, n: nat, st: NodeState)
    requires n in topo
  {
    && match st.tx {
         case TxIdle => true
         case Stamped(k, peer, t1) => t1 - topo[n].clock <= now
         case Sent(k, peerId, t1) => WasSent(topo, net, n, k, t1)
       }
    && match st.rx {
         case RxIdle => true
         case Serving(client, req, t2) =>
           && Packet(client, n, Req(req)) in net && req.ver == WIRE_VERSION && t2 - topo[n].clock <= now
           && (Guarded(topo, client) ==>
                 && client in topo && req.senderId == topo[client].id
                 && req.t1 - topo[client].clock <= t2 - topo[n].clock)
         case Received(src, resp, t4) =>
           && Packet(src, n, Resp(resp)) in net && resp.ver == WIRE_VERSION && t4 - topo[n].clock <= now
           && (Protected(topo, resp.serverId) ==> src in topo && resp.t3 - topo[src].clock <= t4 - topo[n].clock)
       }
    && forall k :: k in st.pending ==> WasSent(topo, net, n, k, st.pending[k].t1)
  }

  ghost predicate SampleOk(topo: Topology, net: set<Packet>, n: nat, x: Sample)
    requires n in topo
  {
    && Packet(x.src, n, Resp(TimeResponse(WIRE_VERSION, x.seqNo, x.peer, x.echo, x.t2, x.t3))) in net
    && WasSent(topo, net, n, x.seqNo, x.t1)
    && (Protected(topo, x.peer) ==> x.src in topo && x.t3 - topo[x.src].clock <= x.t4 - topo[n].clock)
    && ComputeOffsetDelay(x.t1, x.t2, x.t3, x.t4) == PairCalc(x.delay, x.offset)
  }

  ghost predicate SamplesOk(topo: Topology, net: set<Packet>, n: nat, st: NodeState)
    requires n in topo
  {
    forall i :: 0 <= i < |st.samples| ==> SampleOk(topo, net, n, st.samples[i])
  }

  ghost predicate Inv(topo: Topology, s: System) {
    && s.nodes.Keys == topo.Keys
    && (forall p :: p in s.net ==> PacketOk(topo, s.net, s.now, p))
    && (forall n :: n in topo ==> PhasesOk(topo, s.net, s.now, n, s.nodes[n]))
    && (forall n :: n in topo ==> SamplesOk(topo, s.net, n, s.nodes[n]))
  }

  // ----- preservation

  lemma PhasesGrow(topo: Topology, net: set<Packet>, net': set<Packet>, now: int, now': int, n: nat, st: NodeState)
    requires n in topo && net <= net' && now <= now' && PhasesOk(topo, net, now, n, st)
    ensures PhasesOk(topo, net', now', n, st)
  {
    hide Protected, Guarded;
  }

  lemma SamplesGrow(topo: Topology, net: set<Packet>, net': set<Packet>, n: nat, st: NodeState)
    requires n in topo && net <= net' && SamplesOk(topo, net, n, st)
    ensures SamplesOk(topo, net', n, st)
  {
    hide Protected, Guarded;
  }

  /** It is enough to look at the node that moved and the message it added. */
  lemma InvFrom(topo: Topology, s: System, s': System, m: nat)
    requires Inv(topo, s) && s.net <= s'.net && s.now <= s'.now && s'.nodes.Keys == topo.Keys && m in topo
    requires forall n :: n in topo && n != m ==> s'.nodes[n] == s.nodes[n]
    requires forall p :: p in s'.net && p !in s.net ==> PacketOk(topo, s'.net, s'.now, p)
    requires PhasesOk(topo, s'.net, s'.now, m, s'.nodes[m]) && SamplesOk(topo, s'.net, m, s'.nodes[m])
    ensures Inv(topo, s')
  {
    hide PhasesOk, SamplesOk, Protected, Guarded;
    forall p | p in s'.net ensures PacketOk(topo, s'.net, s'.now, p) {
      if p in s.net { assert PacketOk(topo, s.net, s.now, p); }
    }
    forall n | n in topo
      ensures PhasesOk(topo, s'.net, s'.now, n, s'.nodes[n]) && SamplesOk(topo, s'.net, n, s'.nodes[n])
    {
      if n != m {
        PhasesGrow(topo, s.net, s'.net, s.now, s'.now, n, s.nodes[n]);
        SamplesGrow(topo, s.net, s'.net, n, s.nodes[n]);
      }
    }
  }

  /** A step that only changes node n, given what it leaves there. */
  lemma LocalStep(topo: Topology, s: System, n: nat, st: NodeState)
    requires Inv(topo, s) && n in topo && PhasesOk(topo, s.net, s.now, n, st) && SamplesOk(topo, s.net, n, st)
    ensures Inv(topo, Update(s, n, st))
  {
    InvFrom(topo, s, Update(s, n, st), n);
  }

  lemma TickKeepsInv(topo: Topology, s: System, dt: nat)
    requires Inv(topo, s)
    ensures Inv(topo, s.(now := s.now + dt))
  {
    hide PhasesOk, SamplesOk, Protected, Guarded;
    forall n | n in topo ensures PhasesOk(topo, s.net, s.now + dt, n, s.nodes[n]) {
      PhasesGrow(topo, s.net, s.net, s.now, s.now + dt, n, s.nodes[n]);
    }
  }

  lemma SendKeepsInv(topo: Topology, s: System, n: nat, ok: bool)
    requires Inv(topo, s) && Enabled(topo, s, SendStep(n, ok))
    ensures Inv(topo, Apply(topo, s, SendStep(n, ok)))
  {
    var st := s.nodes[n];
    var s' := Apply(topo, s, SendStep(n, ok));
    assert PhasesOk(topo, s.net, s.now, n, st) && SamplesOk(topo, s.net, n, st);
    PhasesGrow(topo, s.net, s'.net, s.now, s'.now, n, st);
    SamplesGrow(topo, s.net, s'.net, n, st);
    if ok {
      assert Packet(n, st.tx.peer.addr, Req(RequestOf(st, topo[n].id))) in s'.net;
      assert WasSent(topo, s'.net, n, st.tx.seqNo, st.tx.t1);
    }
    hide WasSent, Inv, Protected, Guarded;
    assert PhasesOk(topo, s'.net, s'.now, n, s'.nodes[n]);
    assert SamplesOk(topo, s'.net, n, s'.nodes[n]);
    SendFrame(topo, s, s', n, ok);
  }

  lemma SendFrame(topo: Topology, s: System, s': System, n: nat, ok: bool)
    requires Inv(topo, s) && Enabled(topo, s, SendStep(n, ok)) && s' == Apply(topo, s, SendStep(n, ok))
    requires PhasesOk(topo, s'.net, s'.now, n, s'.nodes[n]) && SamplesOk(topo, s'.net, n, s'.nodes[n])
    ensures Inv(topo, s')
  {
    assert PhasesOk(topo, s.net, s.now, n, s.nodes[n]);
    hide WasSent, SamplesOk, Protected, Guarded;
    InvFrom(topo, s, s', n);
  }

  lemma FinishServeKeepsInv(topo: Topology, s: System, n: nat)
    requires Inv(topo, s) && Enabled(topo, s, FinishServeStep(n))
    ensures Inv(topo, Apply(topo, s, FinishServeStep(n)))
  {
    hide WasSent, Protected, Guarded;
    var st := s.nodes[n];
    var s' := Apply(topo, s, FinishServeStep(n));
    assert PhasesOk(topo, s.net, s.now, n, st) && SamplesOk(topo, s.net, n, st);
    SamplesGrow(topo, s.net, s'.net, n, st);
    PhasesGrow(topo, s.net, s'.net, s.now, s'.now, n, FinishServe(st));
    assert st.rx.req == TimeRequest(WIRE_VERSION, st.rx.req.seqNo, st.rx.req.senderId, st.rx.req.t1);
    InvFrom(topo, s, s', n);
  }

  /** What a faulty node sends concerns neither protected ids nor guarded addresses. */
  lemma ForgeKeepsInv(topo: Topology, s: System, n: nat, packet: Packet)
    requires Inv(topo, s) && Enabled(topo, s, ForgeStep(n, packet))
    ensures Inv(topo, Apply(topo, s, ForgeStep(n, packet)))
  {
    var s' := Apply(topo, s, ForgeStep(n, packet));
    assert PacketOk(topo, s'.net, s'.now, packet);
    assert PhasesOk(topo, s.net, s.now, n, s.nodes[n]) && SamplesOk(topo, s.net, n, s.nodes[n]);
    hide PhasesOk, SamplesOk, PacketOk, Protected, Guarded;
    PhasesGrow(topo, s.net, s'.net, s.now, s'.now, n, s.nodes[n]);
    SamplesGrow(topo, s.net, s'.net, n, s.nodes[n]);
    InvFrom(topo, s, s', n);
  }

  lemma LocalSenderKeepsInv(topo: Topology, s: System, n: nat)
    requires Inv(topo, s) && n in topo
    ensures forall peer, t1: Option<int> :: (t1.Some? ==> t1.value == Clock(topo, n, s.now)) ==>
              Inv(topo, Update(s, n, Stamp(s.nodes[n], peer, t1)))
    ensures s.nodes[n].tx.Sent? ==> Inv(topo, Update(s, n, Insert(s.nodes[n], s.now)))
    ensures forall at :: Inv(topo, Update(s, n, Cleanup(s.nodes[n], at)))
  {
    hide WasSent, Protected, Guarded;
    var st := s.nodes[n];
    assert PhasesOk(topo, s.net, s.now, n, st) && SamplesOk(topo, s.net, n, st);
    hide Inv;
    forall peer, t1: Option<int> | t1.Some? ==> t1.value == Clock(topo, n, s.now)
      ensures Inv(topo, Update(s, n, Stamp(st, peer, t1)))
    {
      LocalStep(topo, s, n, Stamp(st, peer, t1));
    }
    if st.tx.Sent? {
      LocalStep(topo, s, n, Insert(st, s.now));
    }
    forall at ensures Inv(topo, Update(s, n, Cleanup(st, at))) {
      LocalStep(topo, s, n, Cleanup(st, at));
    }
  }

  lemma BeginKeepsInv(topo: Topology, s: System, n: nat, src: nat, msg: Message)
    requires Inv(topo, s) && n in topo && Packet(src, n, msg) in s.net
    ensures msg.Req? ==> Inv(topo, Update(s, n, BeginServe(s.nodes[n], src, msg.req, Clock(topo, n, s.now))))
    ensures msg.Resp? ==> Inv(topo, Update(s, n, Receive(s.nodes[n], src, msg.resp, Clock(topo, n, s.now))))
  {
    hide WasSent, Protected, Guarded;
    var st := s.nodes[n];
    assert PhasesOk(topo, s.net, s.now, n, st) && SamplesOk(topo, s.net, n, st);
    assert PacketOk(topo, s.net, s.now, Packet(src, n, msg));
    hide Inv;
    if msg.Req? {
      LocalStep(topo, s, n, BeginServe(st, src, msg.req, Clock(topo, n, s.now)));
    } else {
      LocalStep(topo, s, n, Receive(st, src, msg.resp, Clock(topo, n, s.now)));
    }
  }

  lemma CompleteKeepsSamples(topo: Topology, s: System, n: nat)
    requires Inv(topo, s) && Enabled(topo, s, CompleteStep(n))
    ensures SamplesOk(topo, s.net, n, Complete(s.nodes[n]))
  {
    hide WasSent, Protected, Guarded;
    var st := s.nodes[n];
    var r := st.rx.resp;
    assert SamplesOk(topo, s.net, n, st);
    assert PhasesOk(topo, s.net, s.now, n, st);
    assert PacketOk(topo, s.net, s.now, Packet(st.rx.src, n, Resp(r)));
    if r.seqNo in st.pending && st.pending[r.seqNo].peerId == r.serverId {
      var x := SampleOf(st, st.pending[r.seqNo]);
      assert r == TimeResponse(WIRE_VERSION, r.seqNo, r.serverId, r.t1Echo, r.t2, r.t3);
      assert SampleOk(topo, s.net, n, x);
      assert Complete(st).samples == st.samples + [x];
    }
  }

  lemma CompleteKeepsInv(topo: Topology, s: System, n: nat)
    requires Inv(topo, s) && Enabled(topo, s, CompleteStep(n))
    ensures Inv(topo, Apply(topo, s, CompleteStep(n)))
  {
    CompleteKeepsSamples(topo, s, n);
    hide WasSent, SamplesOk, Protected, Guarded;
    assert PhasesOk(topo, s.net, s.now, n, s.nodes[n]);
    hide Inv;
    LocalStep(topo, s, n, Complete(s.nodes[n]));
  }

  lemma StepKeepsInv(topo: Topology, s: System, step: Step)
    requires Inv(topo, s) && Enabled(topo, s, step)
    ensures Inv(topo, Apply(topo, s, step))
  {
    hide Inv;
    match step
    case Tick(dt) => TickKeepsInv(topo, s, dt);
    case SendStep(n, ok) => SendKeepsInv(topo, s, n, ok);
    case FinishServeStep(n) => FinishServeKeepsInv(topo, s, n);
    case BeginServeStep(n, client, req) => BeginKeepsInv(topo, s, n, client, Req(req));
    case ReceiveStep(n, src, resp) => BeginKeepsInv(topo, s, n, src, Resp(resp));
    case CompleteStep(n) => CompleteKeepsInv(topo, s, n);
    case ForgeStep(n, packet) => ForgeKeepsInv(topo, s, n, packet);
    case StampStep(n, _, _) => LocalSenderKeepsInv(topo, s, n);
    case InsertStep(n) => LocalSenderKeepsInv(topo, s, n);
    case CleanupStep(n, _) => LocalSenderKeepsInv(topo, s, n);
  }

  lemma {:induction false} InvAlways(topo: Topology, start: int, steps: seq<Step>, s: System)
    requires Reaches(topo, start, steps, s)
    ensures Inv(topo, s)
  {
    if |steps| > 0 {
      var mid := Exec(topo, Init(topo, start), steps[..|steps| - 1]).value;
      InvAlways(topo, start, steps[..|steps| - 1], mid);
      StepKeepsInv(topo, mid, steps[|steps| - 1]);
    }
  }
}
