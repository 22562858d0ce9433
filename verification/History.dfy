/** The history of every sample: which four steps of the run took its four readings, in which
    order, and how much time passed between them. */
module History {
  import opened TimeCalc
  import opened Protocol
  import opened Network
  import opened ProtocolSafety

  // ----- what has happened in a run

  /** The global time that passes during the steps. */
  ghost function Elapsed(steps: seq<Step>): nat {
    if |steps| == 0 then 0
    else
      var last := steps[|steps| - 1];
      Elapsed(steps[..|steps| - 1]) + if last.Tick? then last.dt else 0
  }

  /** What the clock of node n shows after the steps. */
  ghost function Reading(topo: Topology, start: int, steps: seq<Step>, n: nat): int
    requires n in topo
  {
    start + Elapsed(steps) + topo[n].clock
  }

  /** How many numbers node n has taken. */
  ghost function Stamps(steps: seq<Step>, n: nat): nat {
    if |steps| == 0 then 0
    else
      var last := steps[|steps| - 1];
      Stamps(steps[..|steps| - 1], n) + if last.StampStep? && last.n == n then 1 else 0
  }

  /** Node n stamped a request for the peer with its reading t1, and its next number was k. */
  ghost predicate WasStamped(topo: Topology, start: int, steps: seq<Step>, n: nat, peer: PeerEntry, k: nat, t1: int)
    requires n in topo
  {
    |steps| > 0 &&
      var before, last := steps[..|steps| - 1], steps[|steps| - 1];
      || (last == StampStep(n, peer, true) && k == (Stamps(before, n) + 1) % 0x1_0000_0000
          && t1 == Reading(topo, start, before, n))
      || WasStamped(topo, start, before, n, peer, k, t1)
  }

  /** The same for some peer at the address. */
  ghost predicate StampedTo(topo: Topology, start: int, steps: seq<Step>, n: nat, addr: nat, k: nat, t1: int)
    requires n in topo
  {
    exists peer: PeerEntry :: peer.addr == addr && WasStamped(topo, start, steps, n, peer, k, t1)
  }

  /** The same for some peer with the id. */
  ghost predicate StampedFor(topo: Topology, start: int, steps: seq<Step>, n: nat, id: nat, k: nat, t1: int)
    requires n in topo
  {
    exists peer: PeerEntry :: peer.id == id && WasStamped(topo, start, steps, n, peer, k, t1)
  }

  /** Node m took a request numbered k stamped t1 from the address, with its reading t2. */
  ghost predicate WasServed(topo: Topology, start: int, steps: seq<Step>, m: nat, client: nat, k: nat, t1: int, t2: int)
    requires m in topo
  {
    |steps| > 0 &&
      var before, last := steps[..|steps| - 1], steps[|steps| - 1];
      || (last.BeginServeStep? && last.n == m && last.client == client && last.req.seqNo == k && last.req.t1 == t1
          && t2 == Reading(topo, start, before, m))
      || WasServed(topo, start, before, m, client, k, t1, t2)
  }

  /** Node m finished serving such a request with this response, with its reading t3. */
  ghost predicate WasAnswered(topo: Topology, start: int, steps: seq<Step>, m: nat, client: nat, r: TimeResponse)
    requires m in topo
  {
    |steps| > 0 &&
      var before, last := steps[..|steps| - 1], steps[|steps| - 1];
      || (last == FinishServeStep(m) && r.t3 == Reading(topo, start, before, m)
          && WasServed(topo, start, before, m, client, r.seqNo, r.t1Echo, r.t2))
      || WasAnswered(topo, start, before, m, client, r)
  }

  /** Node n took the response from the address, with its reading t4. */
  ghost predicate WasReceived(topo: Topology, start: int, steps: seq<Step>, n: nat, src: nat, r: TimeResponse, t4: int)
    requires n in topo
  {
    |steps| > 0 &&
      var before, last := steps[..|steps| - 1], steps[|steps| - 1];
      || (last == ReceiveStep(n, src, r) && t4 == Reading(topo, start, before, n))
      || WasReceived(topo, start, before, n, src, r, t4)
  }

  // ----- everything a node holds has happened

  ghost function ResponseOfSample(x: Sample): TimeResponse {
    TimeResponse(1, x.seqNo, x.peer, x.echo, x.t2, x.t3)
  }

  ghost predicate PhasesTraced(topo: Topology, start: int, steps: seq<Step>, n: nat, st: NodeState)
    requires n in topo
  {
    && st.allocs == Stamps(steps, n) && st.next == (Stamps(steps, n) + 1) % 0x1_0000_0000
    && (st.tx.Stamped? ==> WasStamped(topo, start, steps, n, st.tx.peer, st.tx.seqNo, st.tx.t1))
    && (st.tx.Sent? ==> StampedFor(topo, start, steps, n, st.tx.peerId, st.tx.seqNo, st.tx.t1))
    && (forall k :: k in st.pending ==>
          StampedFor(topo, start, steps, n, st.pending[k].peerId, k, st.pending[k].t1))
    && (st.rx.Serving? ==> WasServed(topo, start, steps, n, st.rx.client, st.rx.req.seqNo, st.rx.req.t1, st.rx.t2))
    && (st.rx.Received? ==> st.rx.resp.ver == 1 && WasReceived(topo, start, steps, n, st.rx.src, st.rx.resp, st.rx.t4))
  }

  ghost predicate SamplesTraced(topo: Topology, start: int, steps: seq<Step>, n: nat, samples: seq<Sample>)
    requires n in topo
  {
    forall i :: 0 <= i < |samples| ==>
      && StampedFor(topo, start, steps, n, samples[i].peer, samples[i].seqNo, samples[i].t1)
      && WasReceived(topo, start, steps, n, samples[i].src, ResponseOfSample(samples[i]), samples[i].t4)
  }

  ghost predicate PacketTraced(topo: Topology, start: int, steps: seq<Step>, p: Packet) {
    match p.msg
    case Req(r) => Guarded(topo, p.src) ==> StampedTo(topo, start, steps, p.src, p.dst, r.seqNo, r.t1)
    case Resp(r) => Protected(topo, r.serverId) ==> p.src in topo && WasAnswered(topo, start, steps, p.src, p.dst, r)
  }

  ghost predicate Traced(topo: Topology, start: int, steps: seq<Step>, s: System) {
    && s.nodes.Keys == topo.Keys && s.now == start + Elapsed(steps)
    && (forall n :: n in topo ==> PhasesTraced(topo, start, steps, n, s.nodes[n]))
    && (forall n :: n in topo ==> SamplesTraced(topo, start, steps, n, s.nodes[n].samples))
    && (forall p :: p in s.net ==> PacketTraced(topo, start, steps, p))
  }

  // ----- what has happened stays so

  lemma StillHappened(topo: Topology, start: int, steps: seq<Step>, step: Step, n: nat)
    requires n in topo
    ensures forall peer, k, t1 :: WasStamped(topo, start, steps, n, peer, k, t1) ==>
              WasStamped(topo, start, steps + [step], n, peer, k, t1)
    ensures forall client, k, t1, t2 :: WasServed(topo, start, steps, n, client, k, t1, t2) ==>
              WasServed(topo, start, steps + [step], n, client, k, t1, t2)
    ensures forall client, r :: WasAnswered(topo, start, steps, n, client, r) ==>
              WasAnswered(topo, start, steps + [step], n, client, r)
    ensures forall src, r, t4 :: WasReceived(topo, start, steps, n, src, r, t4) ==>
              WasReceived(topo, start, steps + [step], n, src, r, t4)
  {
    hide Reading;
    assert (steps + [step])[..|steps|] == steps;
  }

  lemma StampsStill(topo: Topology, start: int, steps: seq<Step>, step: Step, n: nat)
    requires n in topo
    ensures forall addr, k, t1 :: StampedTo(topo, start, steps, n, addr, k, t1) ==>
              StampedTo(topo, start, steps + [step], n, addr, k, t1)
    ensures forall id, k, t1 :: StampedFor(topo, start, steps, n, id, k, t1) ==>
              StampedFor(topo, start, steps + [step], n, id, k, t1)
    ensures Stamps(steps + [step], n) == Stamps(steps, n) + if step.StampStep? && step.n == n then 1 else 0
  {
    StillHappened(topo, start, steps, step, n);
    assert (steps + [step])[..|steps|] == steps;
    hide WasStamped, WasServed, WasAnswered, WasReceived;
  }

  lemma TracedLater(topo: Topology, start: int, steps: seq<Step>, step: Step, n: nat, st: NodeState)
    requires n in topo && !(step.StampStep? && step.n == n)
    requires PhasesTraced(topo, start, steps, n, st) && SamplesTraced(topo, start, steps, n, st.samples)
    ensures PhasesTraced(topo, start, steps + [step], n, st)
    ensures SamplesTraced(topo, start, steps + [step], n, st.samples)
  {
    hide WasStamped, WasServed, WasAnswered, WasReceived, StampedTo, StampedFor, Stamps;
    StillHappened(topo, start, steps, step, n);
    StampsStill(topo, start, steps, step, n);
  }

  lemma PacketLater(topo: Topology, start: int, steps: seq<Step>, step: Step, p: Packet)
    requires PacketTraced(topo, start, steps, p)
    ensures PacketTraced(topo, start, steps + [step], p)
  {
    hide WasStamped, WasServed, WasAnswered, WasReceived, StampedTo, StampedFor, Protected;
    if p.src in topo {
      StillHappened(topo, start, steps, step, p.src);
      StampsStill(topo, start, steps, step, p.src);
    }
  }

  // ----- one step

  lemma StampPhases(topo: Topology, start: int, steps: seq<Step>, s: System, step: Step, n: nat)
    requires Traced(topo, start, steps, s) && Enabled(topo, s, step) && n in topo && step.StampStep? && step.n == n
    ensures PhasesTraced(topo, start, steps + [step], n, Apply(topo, s, step).nodes[n])
    ensures SamplesTraced(topo, start, steps + [step], n, Apply(topo, s, step).nodes[n].samples)
  {
    assert PhasesTraced(topo, start, steps, n, s.nodes[n]);
    assert SamplesTraced(topo, start, steps, n, s.nodes[n].samples);
    StillHappened(topo, start, steps, step, n);
    StampsStill(topo, start, steps, step, n);
    WrapStep(Stamps(steps, n));
    if step.readable { StampedNow(topo, start, steps, step, n); }
    hide WasServed, WasReceived, WasStamped, StampedFor, StampedTo, Elapsed, Stamps;
    assert s.now == start + Elapsed(steps);
  }

  lemma StampedNow(topo: Topology, start: int, steps: seq<Step>, step: Step, n: nat)
    requires n in topo && step.StampStep? && step.n == n && step.readable
    ensures WasStamped(topo, start, steps + [step], n, step.peer, (Stamps(steps, n) + 1) % 0x1_0000_0000,
                       Reading(topo, start, steps, n))
  {
    assert (steps + [step])[..|steps|] == steps;
  }

  lemma SenderPhases(topo: Topology, start: int, steps: seq<Step>, s: System, step: Step, n: nat)
    requires Traced(topo, start, steps, s) && Enabled(topo, s, step) && n in topo
    requires step.SendStep? || step.InsertStep?
    requires step.n == n
    ensures PhasesTraced(topo, start, steps + [step], n, Apply(topo, s, step).nodes[n])
  {
    TracedLater(topo, start, steps, step, n, s.nodes[n]);
    hide WasServed, WasReceived, WasStamped, Traced, Elapsed, Stamps;
    var st := s.nodes[n];
    assert st.tx.Stamped? ==> StampedFor(topo, start, steps + [step], n, st.tx.peer.id, st.tx.seqNo, st.tx.t1);
  }

  /** Taking a message is what has just happened. */
  lemma TakenNow(topo: Topology, start: int, steps: seq<Step>, step: Step, n: nat)
    requires n in topo
    ensures step.BeginServeStep? && step.n == n ==>
              WasServed(topo, start, steps + [step], n, step.client, step.req.seqNo, step.req.t1,
                        Reading(topo, start, steps, n))
    ensures step.ReceiveStep? && step.n == n ==>
              WasReceived(topo, start, steps + [step], n, step.src, step.resp, Reading(topo, start, steps, n))
  {
    assert (steps + [step])[..|steps|] == steps;
  }

  lemma ReceiverPhases(topo: Topology, start: int, steps: seq<Step>, s: System, step: Step, n: nat)
    requires Traced(topo, start, steps, s) && Enabled(topo, s, step) && n in topo
    requires step.BeginServeStep? || step.FinishServeStep? || step.ReceiveStep?
    requires step.n == n
    ensures PhasesTraced(topo, start, steps + [step], n, Apply(topo, s, step).nodes[n])
  {
    TracedLater(topo, start, steps, step, n, s.nodes[n]);
    TakenNow(topo, start, steps, step, n);
    assert s.now == start + Elapsed(steps);
    hide Traced, WasServed, WasReceived, WasStamped, WasAnswered, StampedFor, Stamps, Elapsed;
  }

  /** Nothing new is held, and nothing is stamped. */
  ghost predicate Fewer(st: NodeState, st': NodeState) {
    && st'.next == st.next && st'.allocs == st.allocs && st'.tx == st.tx && (st'.rx == st.rx || st'.rx == RxIdle)
    && forall k :: k in st'.pending ==> k in st.pending && st'.pending[k] == st.pending[k]
  }

  lemma FewerPhases(topo: Topology, start: int, steps: seq<Step>, n: nat, st: NodeState, st': NodeState)
    requires n in topo && PhasesTraced(topo, start, steps, n, st) && Fewer(st, st')
    ensures PhasesTraced(topo, start, steps, n, st')
  {
    hide WasServed, WasReceived, WasStamped, StampedFor, Stamps;
  }

  lemma CompleteHoldsFewer(topo: Topology, s: System, step: Step)
    requires Enabled(topo, s, step) && (step.CompleteStep? || step.CleanupStep? || step.ForgeStep?)
    ensures step.n in s.nodes && step.n in Apply(topo, s, step).nodes
    ensures Fewer(s.nodes[step.n], Apply(topo, s, step).nodes[step.n])
  {
    hide ComputeOffsetDelay, MayForge;
  }

  lemma PendingPhases(topo: Topology, start: int, steps: seq<Step>, s: System, step: Step, n: nat)
    requires Traced(topo, start, steps, s) && Enabled(topo, s, step) && n in topo
    requires step.CompleteStep? || step.CleanupStep? || step.ForgeStep?
    requires step.n == n
    ensures PhasesTraced(topo, start, steps + [step], n, Apply(topo, s, step).nodes[n])
  {
    TracedLater(topo, start, steps, step, n, s.nodes[n]);
    hide Traced, PhasesTraced, Enabled, Apply, Fewer;
    CompleteHoldsFewer(topo, s, step);
    FewerPhases(topo, start, steps + [step], n, s.nodes[n], Apply(topo, s, step).nodes[n]);
  }

  lemma ActorPhases(topo: Topology, start: int, steps: seq<Step>, s: System, step: Step, n: nat)
    requires Traced(topo, start, steps, s) && Enabled(topo, s, step) && n in topo && !step.Tick? && step.n == n
    requires !step.StampStep?
    ensures PhasesTraced(topo, start, steps + [step], n, Apply(topo, s, step).nodes[n])
  {
    hide Traced, PhasesTraced, Enabled, Apply;
    if step.SendStep? || step.InsertStep? {
      SenderPhases(topo, start, steps, s, step, n);
    } else if step.BeginServeStep? || step.FinishServeStep? || step.ReceiveStep? {
      ReceiverPhases(topo, start, steps, s, step, n);
    } else {
      PendingPhases(topo, start, steps, s, step, n);
    }
  }

  lemma ActorSamples(topo: Topology, start: int, steps: seq<Step>, s: System, step: Step, n: nat)
    requires Traced(topo, start, steps, s) && Enabled(topo, s, step) && n in topo && !step.Tick? && step.n == n
    requires !step.StampStep?
    ensures SamplesTraced(topo, start, steps + [step], n, Apply(topo, s, step).nodes[n].samples)
  {
    TracedLater(topo, start, steps, step, n, s.nodes[n]);
    hide WasStamped, WasServed, WasAnswered, WasReceived, StampedFor, Stamps, ComputeOffsetDelay, MayForge;
    var st, st' := s.nodes[n], Apply(topo, s, step).nodes[n];
    assert PhasesTraced(topo, start, steps + [step], n, st);
    if step.CompleteStep? && st'.samples != st.samples {
      var x := SampleOf(st, st.pending[st.rx.resp.seqNo]);
      assert st'.samples == st.samples + [x] && x.t4 == st.rx.t4 && x.src == st.rx.src;
      assert ResponseOfSample(x) == st.rx.resp;
    }
  }

  lemma ActorTraced(topo: Topology, start: int, steps: seq<Step>, s: System, step: Step, n: nat)
    requires Traced(topo, start, steps, s) && Enabled(topo, s, step) && n in topo && !step.Tick? && step.n == n
    ensures PhasesTraced(topo, start, steps + [step], n, Apply(topo, s, step).nodes[n])
    ensures SamplesTraced(topo, start, steps + [step], n, Apply(topo, s, step).nodes[n].samples)
  {
    hide Traced, PhasesTraced, SamplesTraced;
    if step.StampStep? {
      StampPhases(topo, start, steps, s, step, n);
    } else {
      ActorPhases(topo, start, steps, s, step, n);
      ActorSamples(topo, start, steps, s, step, n);
    }
  }

  lemma NewPacket(topo: Topology, start: int, steps: seq<Step>, s: System, step: Step, p: Packet)
    requires Traced(topo, start, steps, s) && Enabled(topo, s, step)
    requires p in Apply(topo, s, step).net && p !in s.net
    ensures PacketTraced(topo, start, steps + [step], p)
  {
    assert (steps + [step])[..|steps|] == steps;
    var n := step.n;
    assert PhasesTraced(topo, start, steps, n, s.nodes[n]);
    StillHappened(topo, start, steps, step, n);
    hide WasServed, WasReceived, WasStamped, StampedFor, Stamps;
    if step.SendStep? {
      StampsStill(topo, start, steps, step, n);
      var st := s.nodes[n];
      assert StampedTo(topo, start, steps, n, st.tx.peer.addr, st.tx.seqNo, st.tx.t1);
    }
  }

  lemma StepTraced(topo: Topology, start: int, steps: seq<Step>, s: System, step: Step)
    requires Traced(topo, start, steps, s) && Enabled(topo, s, step)
    ensures Traced(topo, start, steps + [step], Apply(topo, s, step))
  {
    var s', all := Apply(topo, s, step), steps + [step];
    assert all[..|steps|] == steps;
    forall n | n in topo
      ensures PhasesTraced(topo, start, all, n, s'.nodes[n]) && SamplesTraced(topo, start, all, n, s'.nodes[n].samples)
    {
      if !step.Tick? && step.n == n {
        ActorTraced(topo, start, steps, s, step, n);
      } else {
        Bystander(topo, s, step, n);
        TracedLater(topo, start, steps, step, n, s.nodes[n]);
      }
    }
    forall p | p in s'.net ensures PacketTraced(topo, start, all, p) {
      if p in s.net {
        PacketLater(topo, start, steps, step, p);
      } else {
        NewPacket(topo, start, steps, s, step, p);
      }
    }
    hide PhasesTraced, SamplesTraced, PacketTraced, Apply, Enabled;
    KeysKept(topo, s, step);
  }

  lemma Bystander(topo: Topology, s: System, step: Step, n: nat)
    requires Enabled(topo, s, step) && n in s.nodes && (step.Tick? || step.n != n)
    ensures n in Apply(topo, s, step).nodes && Apply(topo, s, step).nodes[n] == s.nodes[n]
  {
  }

  lemma KeysKept(topo: Topology, s: System, step: Step)
    requires Enabled(topo, s, step)
    ensures Apply(topo, s, step).nodes.Keys == s.nodes.Keys
    ensures Apply(topo, s, step).now == s.now + if step.Tick? then step.dt else 0
  {
  }

  lemma {:induction false} TracedAlways(topo: Topology, start: int, steps: seq<Step>, s: System)
    requires Reaches(topo, start, steps, s)
    ensures Traced(topo, start, steps, s)
  {
    hide Apply, Enabled, PhasesTraced, SamplesTraced, PacketTraced;
    if |steps| == 0 {
      InitTraced(topo, start);
      assert steps == [];
    } else {
      hide Traced;
      var before, last := steps[..|steps| - 1], steps[|steps| - 1];
      var mid := Exec(topo, Init(topo, start), before).value;
      TracedAlways(topo, start, before, mid);
      StepTraced(topo, start, before, mid, last);
      assert before + [last] == steps;
    }
  }

  lemma InitTraced(topo: Topology, start: int)
    ensures Traced(topo, start, [], Init(topo, start))
  {
  }

  // ----- the steps themselves

  lemma {:induction false} ReachesPrefix(topo: Topology, start: int, steps: seq<Step>, s: System, i: nat)
    returns (mid: System)
    requires Reaches(topo, start, steps, s) && i < |steps|
    ensures Reaches(topo, start, steps[..i], mid) && Enabled(topo, mid, steps[i])
  {
    hide Enabled, Apply;
    var before := steps[..|steps| - 1];
    mid := Exec(topo, Init(topo, start), before).value;
    if i < |before| {
      mid := ReachesPrefix(topo, start, before, mid, i);
      assert before[..i] == steps[..i];
    } else {
      assert before == steps[..i];
    }
  }

  lemma {:induction false} StampIndex(topo: Topology, start: int, steps: seq<Step>, n: nat, peer: PeerEntry, k: nat,
      t1: int) returns (a: nat)
    requires n in topo && WasStamped(topo, start, steps, n, peer, k, t1)
    ensures a < |steps| && steps[a] == StampStep(n, peer, true) && k == (Stamps(steps[..a], n) + 1) % 0x1_0000_0000
    ensures t1 == Reading(topo, start, steps[..a], n)
  {
    hide Reading, Stamps;
    var before, last := steps[..|steps| - 1], steps[|steps| - 1];
    if WasStamped(topo, start, before, n, peer, k, t1) {
      a := StampIndex(topo, start, before, n, peer, k, t1);
      assert before[..a] == steps[..a];
    } else {
      a := |steps| - 1;
    }
  }

  lemma {:induction false} StampsGrow(steps: seq<Step>, n: nat, i: nat, j: nat)
    requires i <= j <= |steps|
    ensures Stamps(steps[..i], n) <= Stamps(steps[..j], n)
    ensures i < j && steps[i].StampStep? && steps[i].n == n ==> Stamps(steps[..i], n) < Stamps(steps[..j], n)
  {
    if i < j {
      StampsGrow(steps, n, i, j - 1);
      assert steps[..j][..j - 1] == steps[..j - 1];
    }
  }

  /** Before the wrap a number tells when it was stamped. */
  lemma SameStamp(steps: seq<Step>, n: nat, a: nat, a': nat)
    requires a <= a' < |steps| && Stamps(steps, n) <= 0x1_0000_0000
    requires steps[a].StampStep? && steps[a].n == n && steps[a'].StampStep? && steps[a'].n == n
    requires (Stamps(steps[..a], n) + 1) % 0x1_0000_0000 == (Stamps(steps[..a'], n) + 1) % 0x1_0000_0000
    ensures a == a'
  {
    StampsGrow(steps, n, a, a');
    StampsGrow(steps, n, a', |steps|);
    assert steps[..|steps|] == steps;
    hide Stamps;
  }

  lemma {:induction false} ServeIndex(topo: Topology, start: int, steps: seq<Step>, m: nat, client: nat, k: nat,
      t1: int, t2: int) returns (b: nat)
    requires m in topo && WasServed(topo, start, steps, m, client, k, t1, t2)
    ensures b < |steps| && steps[b].BeginServeStep? && steps[b].n == m && steps[b].client == client
    ensures steps[b].req.seqNo == k && steps[b].req.t1 == t1 && t2 == Reading(topo, start, steps[..b], m)
  {
    hide Reading;
    var before, last := steps[..|steps| - 1], steps[|steps| - 1];
    if WasServed(topo, start, before, m, client, k, t1, t2) {
      b := ServeIndex(topo, start, before, m, client, k, t1, t2);
      assert before[..b] == steps[..b];
    } else {
      b := |steps| - 1;
    }
  }

  lemma {:induction false} AnswerIndex(topo: Topology, start: int, steps: seq<Step>, m: nat, client: nat,
      r: TimeResponse) returns (c: nat)
    requires m in topo && WasAnswered(topo, start, steps, m, client, r)
    ensures c < |steps| && steps[c] == FinishServeStep(m) && r.t3 == Reading(topo, start, steps[..c], m)
    ensures WasServed(topo, start, steps[..c], m, client, r.seqNo, r.t1Echo, r.t2)
  {
    hide Reading, WasServed;
    var before, last := steps[..|steps| - 1], steps[|steps| - 1];
    if WasAnswered(topo, start, before, m, client, r) {
      c := AnswerIndex(topo, start, before, m, client, r);
      assert before[..c] == steps[..c];
    } else {
      c := |steps| - 1;
    }
  }

  lemma {:induction false} ReceiveIndex(topo: Topology, start: int, steps: seq<Step>, n: nat, src: nat, r: TimeResponse,
      t4: int) returns (d: nat)
    requires n in topo && WasReceived(topo, start, steps, n, src, r, t4)
    ensures d < |steps| && steps[d] == ReceiveStep(n, src, r) && t4 == Reading(topo, start, steps[..d], n)
  {
    hide Reading;
    var before, last := steps[..|steps| - 1], steps[|steps| - 1];
    if WasReceived(topo, start, before, n, src, r, t4) {
      d := ReceiveIndex(topo, start, before, n, src, r, t4);
      assert before[..d] == steps[..d];
    } else {
      d := |steps| - 1;
    }
  }

  /** A response under a protected id to a guarded address was received after it was answered,
      answered after the request was taken, and the request taken after it was stamped. */
  lemma ResponseHistory(topo: Topology, start: int, steps: seq<Step>, s: System, n: nat, src: nat, r: TimeResponse,
      t4: int) returns (peer: PeerEntry, a: nat, b: nat, c: nat, d: nat)
    requires Reaches(topo, start, steps, s) && n in topo && Guarded(topo, n) && Protected(topo, r.serverId)
    requires WasReceived(topo, start, steps, n, src, r, t4)
    ensures a < b < c < d < |steps| && src in topo
    ensures steps[a] == StampStep(n, peer, true) && peer.addr == src
    ensures r.seqNo == (Stamps(steps[..a], n) + 1) % 0x1_0000_0000
    ensures steps[b].BeginServeStep? && steps[b].n == src && steps[b].client == n
    ensures steps[b].req.seqNo == r.seqNo && steps[b].req.t1 == r.t1Echo
    ensures steps[c] == FinishServeStep(src) && steps[d] == ReceiveStep(n, src, r)
    ensures r.t1Echo == Reading(topo, start, steps[..a], n) && r.t2 == Reading(topo, start, steps[..b], src)
    ensures r.t3 == Reading(topo, start, steps[..c], src) && t4 == Reading(topo, start, steps[..d], n)
  {
    hide Reading, Stamps, WasStamped, WasServed, WasAnswered, WasReceived, Reaches, Guarded, Protected, MayForge;
    d := ReceiveIndex(topo, start, steps, n, src, r, t4);
    var atD := ReachesPrefix(topo, start, steps, s, d);
    TracedAlways(topo, start, steps[..d], atD);
    assert PacketTraced(topo, start, steps[..d], Packet(src, n, Resp(r)));
    c := AnswerIndex(topo, start, steps[..d], src, n, r);
    assert steps[..d][..c] == steps[..c];
    b := ServeIndex(topo, start, steps[..c], src, n, r.seqNo, r.t1Echo, r.t2);
    assert steps[..c][..b] == steps[..b];
    var atB := ReachesPrefix(topo, start, steps, s, b);
    TracedAlways(topo, start, steps[..b], atB);
    assert PacketTraced(topo, start, steps[..b], Packet(n, src, Req(steps[b].req)));
    peer :| peer.addr == src && WasStamped(topo, start, steps[..b], n, peer, r.seqNo, r.t1Echo);
    a := StampIndex(topo, start, steps[..b], n, peer, r.seqNo, r.t1Echo);
    assert steps[..b][..a] == steps[..a];
  }

  /** The history of every sample under a trusted id, before the counter wraps: node n stamped,
      with the number of the sample, a request for the peer with that id, to the address the answer
      came from; the node there took it, answered it and n took the answer, in this order; the four
      timestamps are what the two clocks showed at these steps; and the recorded delay is exactly
      the time that passed between the first two and between the last two of them. */
  lemma SampleHistory(topo: Topology, start: int, steps: seq<Step>, s: System, n: nat, i: nat)
    returns (a: nat, b: nat, c: nat, d: nat)
    requires Reaches(topo, start, steps, s) && n in topo && n in s.nodes && i < |s.nodes[n].samples|
    requires Trusted(topo, n, s.nodes[n].samples[i].peer) && s.nodes[n].allocs <= 0x1_0000_0000
    ensures a < b < c < d < |steps| && s.nodes[n].samples[i].src in topo
    ensures var x := s.nodes[n].samples[i];
            && steps[a] == StampStep(n, PeerEntry(x.peer, x.src), true)
            && x.seqNo == (Stamps(steps[..a], n) + 1) % 0x1_0000_0000
            && steps[b] == BeginServeStep(x.src, n, TimeRequest(1, x.seqNo, topo[n].id, x.t1))
            && steps[c] == FinishServeStep(x.src)
            && steps[d] == ReceiveStep(n, x.src, TimeResponse(1, x.seqNo, x.peer, x.t1, x.t2, x.t3))
            && x.t1 == start + Elapsed(steps[..a]) + topo[n].clock
            && x.t2 == start + Elapsed(steps[..b]) + topo[x.src].clock
            && x.t3 == start + Elapsed(steps[..c]) + topo[x.src].clock
            && x.t4 == start + Elapsed(steps[..d]) + topo[n].clock
            && x.delay == (Elapsed(steps[..b]) - Elapsed(steps[..a])) + (Elapsed(steps[..d]) - Elapsed(steps[..c]))
  {
    hide Traced, Inv, AllNumbered, Reaches, WasReceived, WasStamped, Elapsed, Stamps, Trusted, Guarded, Protected;
    var x := s.nodes[n].samples[i];
    SampleFacts(topo, start, steps, s, n, i);
    var peer;
    peer, a, b, c, d := ResponseHistory(topo, start, steps, s, n, x.src, ResponseOfSample(x), x.t4);
    RequestTaken(topo, start, steps, s, n, b);
    var meant: PeerEntry :| meant.id == x.peer && WasStamped(topo, start, steps, n, meant, x.seqNo, x.t1);
    var a' := StampIndex(topo, start, steps, n, meant, x.seqNo, x.t1);
    SameStamp(steps, n, if a <= a' then a else a', if a <= a' then a' else a);
    assert PeerEntry(peer.id, peer.addr) == peer;
    assert ComputeOffsetDelay(x.t1, x.t2, x.t3, x.t4) == PairCalc(x.delay, x.offset);
  }

  lemma SampleFacts(topo: Topology, start: int, steps: seq<Step>, s: System, n: nat, i: nat)
    requires Reaches(topo, start, steps, s) && n in topo && n in s.nodes && i < |s.nodes[n].samples|
    requires Trusted(topo, n, s.nodes[n].samples[i].peer) && s.nodes[n].allocs <= 0x1_0000_0000
    ensures var x := s.nodes[n].samples[i];
            && Guarded(topo, n) && Protected(topo, x.peer) && x.echo == x.t1
            && s.nodes[n].allocs == Stamps(steps, n)
            && StampedFor(topo, start, steps, n, x.peer, x.seqNo, x.t1)
            && WasReceived(topo, start, steps, n, x.src, ResponseOfSample(x), x.t4)
            && ComputeOffsetDelay(x.t1, x.t2, x.t3, x.t4) == PairCalc(x.delay, x.offset)
  {
    hide Reaches, WasReceived, StampedFor, Stamps, Elapsed;
    TracedAlways(topo, start, steps, s);
    InvAlways(topo, start, steps, s);
    NumberedAlways(topo, start, steps, s);
    EchoMatches(topo, s, n, i);
    SampleGuarded(topo, s, n, i);
    assert PhasesTraced(topo, start, steps, n, s.nodes[n]);
    assert SamplesTraced(topo, start, steps, n, s.nodes[n].samples);
  }

  lemma SampleGuarded(topo: Topology, s: System, n: nat, i: nat)
    requires Inv(topo, s) && n in topo && i < |s.nodes[n].samples| && Trusted(topo, n, s.nodes[n].samples[i].peer)
    ensures Guarded(topo, n) && Protected(topo, s.nodes[n].samples[i].peer)
    ensures var x := s.nodes[n].samples[i]; ComputeOffsetDelay(x.t1, x.t2, x.t3, x.t4) == PairCalc(x.delay, x.offset)
  {
    var x := s.nodes[n].samples[i];
    assert SamplesOk(topo, s.net, n, s.nodes[n]);
    assert SampleOk(topo, s.net, n, x);
    TrustedAnswer(topo, s, n, x.src, TimeResponse(WIRE_VERSION, x.seqNo, x.peer, x.echo, x.t2, x.t3));
  }

  /** A request taken from a guarded address is one of version 1 under its own id. */
  lemma RequestTaken(topo: Topology, start: int, steps: seq<Step>, s: System, n: nat, b: nat)
    requires Reaches(topo, start, steps, s) && Guarded(topo, n) && n in topo && b < |steps|
    requires steps[b].BeginServeStep? && steps[b].client == n
    ensures steps[b].req.ver == 1 && steps[b].req.senderId == topo[n].id
  {
    var at := ReachesPrefix(topo, start, steps, s, b);
    InvAlways(topo, start, steps[..b], at);
    assert PacketOk(topo, at.net, at.now, Packet(n, steps[b].n, Req(steps[b].req)));
    hide Reaches, Guarded;
  }
}
