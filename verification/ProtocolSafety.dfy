/** Sequence numbers over whole runs of the protocol: where each allocated number is, that a
    number yields at most one sample, and that every sample comes from one genuine exchange,
    as long as the 32-bit counter has not wrapped. */
module ProtocolSafety {
  import opened Wrappers
  import opened Jitter
  import opened TimeCalc
  import opened Protocol
  import opened Network

  // ----- the ledger of sequence numbers

  /** The first `a` numbers handed out by a 32-bit counter that starts at one. */
  ghost function Issued(a: nat): set<nat> {
    if a == 0 then {} else Issued(a - 1) + {a % SEQ_SPACE}
  }

  lemma {:induction false} IssuedBelow(a: nat, k: nat)
    requires a < SEQ_SPACE
    ensures k in Issued(a) <==> 1 <= k <= a
  {
    if a > 0 {
      IssuedBelow(a - 1, k);
    }
  }

  /** A number is fresh until the whole space has been used. */
  lemma NextIsFresh(a: nat)
    requires a < SEQ_SPACE
    ensures (a + 1) % SEQ_SPACE !in Issued(a)
  {
    IssuedBelow(a, (a + 1) % SEQ_SPACE);
  }

  ghost function SeqNos(samples: seq<Sample>): set<nat> {
    set i | 0 <= i < |samples| :: samples[i].seqNo
  }

  lemma SeqNosAppend(samples: seq<Sample>, x: Sample)
    ensures SeqNos(samples + [x]) == SeqNos(samples) + {x.seqNo}
  {
    var all := samples + [x];
    forall k | k in SeqNos(samples) + {x.seqNo} ensures k in SeqNos(all) {
      if k == x.seqNo {
        assert all[|samples|].seqNo == k;
      } else {
        var i :| 0 <= i < |samples| && samples[i].seqNo == k;
        assert all[i].seqNo == k;
      }
    }
  }

  ghost predicate HasFate(st: NodeState, k: nat, f: Fate) {
    k in st.fate && st.fate[k] == f
  }

  /** Every allocated number has exactly one fate, and the fate matches the node's state. */
  ghost predicate Conserved(st: NodeState) {
    && st.fate.Keys == Issued(st.allocs)
    && (st.tx.Stamped? ==> HasFate(st, st.tx.seqNo, NotSent))
    && (forall k :: HasFate(st, k, SentNotInserted) <==> st.tx.Sent? && st.tx.seqNo == k)
    && (forall k :: HasFate(st, k, Pending) <==> k in st.pending)
    && (forall k :: HasFate(st, k, Sampled) <==> k in SeqNos(st.samples))
    && (forall i, j :: 0 <= i < j < |st.samples| ==> st.samples[i].seqNo != st.samples[j].seqNo)
  }

  ghost predicate SameNumber(p: Packet, q: Packet, n: nat) {
    p.src == n && q.src == n && p.msg.Req? && q.msg.Req? && p.msg.req.seqNo == q.msg.req.seqNo
  }

  /** The requests of node n on the wire are those whose number has left, one for each. */
  ghost predicate RequestsUnique(net: set<Packet>, n: nat, st: NodeState) {
    && (forall p :: p in net && p.src == n && p.msg.Req? ==>
          p.msg.req.seqNo in st.fate && st.fate[p.msg.req.seqNo] != NotSent)
    && (forall p, q :: p in net && q in net && SameNumber(p, q, n) ==> p == q)
  }

  ghost predicate Numbered(topo: Topology, net: set<Packet>, n: nat, st: NodeState) {
    && st.next == (st.allocs + 1) % SEQ_SPACE
    && (st.allocs <= SEQ_SPACE ==> Conserved(st))
    && (st.allocs <= SEQ_SPACE && Guarded(topo, n) ==> RequestsUnique(net, n, st))
  }

  ghost predicate AllNumbered(topo: Topology, s: System) {
    s.nodes.Keys == topo.Keys && forall n :: n in topo ==> Numbered(topo, s.net, n, s.nodes[n])
  }

  /** Two states whose ledgers agree away from number m. */
  ghost predicate AgreeExcept(st: NodeState, st': NodeState, m: nat) {
    forall k, f :: k != m ==> (HasFate(st', k, f) <==> HasFate(st, k, f))
  }

  lemma AllocateConserved(st: NodeState)
    requires st.next == (st.allocs + 1) % SEQ_SPACE
    requires st.allocs < SEQ_SPACE && Conserved(st) && st.tx.TxIdle?
    ensures Conserved(Allocate(st)) && HasFate(Allocate(st), st.next, NotSent) && st.next !in st.fate
  {
    NextIsFresh(st.allocs);
    var st' := Allocate(st);
    var m := st.next;
    assert AgreeExcept(st, st', m);
    assert forall f :: !HasFate(st, m, f);
    assert m !in st.pending && m !in SeqNos(st.samples);
  }

  /** A change of node n that leaves the set of numbers that have left unchanged. */
  lemma RequestsKept(net: set<Packet>, n: nat, st: NodeState, st': NodeState)
    requires RequestsUnique(net, n, st)
    requires forall k :: k in st.fate && st.fate[k] != NotSent ==> k in st'.fate && st'.fate[k] != NotSent
    ensures RequestsUnique(net, n, st')
  {
  }

  lemma WrapStep(a: nat)
    ensures ((a + 1) % SEQ_SPACE + 1) % SEQ_SPACE == (a + 2) % SEQ_SPACE
  {
  }

  lemma AllocateNumbered(topo: Topology, net: set<Packet>, n: nat, st: NodeState)
    requires Numbered(topo, net, n, st) && st.tx.TxIdle?
    ensures Numbered(topo, net, n, Allocate(st))
    ensures Allocate(st).allocs <= SEQ_SPACE ==> HasFate(Allocate(st), st.next, NotSent)
  {
    WrapStep(st.allocs);
    if st.allocs < SEQ_SPACE {
      AllocateConserved(st);
      hide Conserved, RequestsUnique;
      if Guarded(topo, n) { RequestsKept(net, n, st, Allocate(st)); }
    }
  }

  lemma StampNumbered(topo: Topology, net: set<Packet>, n: nat, st: NodeState, peer: PeerEntry, t1: Option<int>)
    requires Numbered(topo, net, n, st) && st.tx.TxIdle?
    ensures Numbered(topo, net, n, Stamp(st, peer, t1))
  {
    AllocateNumbered(topo, net, n, st);
    if t1.Some? {
      var a, b := Allocate(st), Stamp(st, peer, t1);
      assert forall k, f :: HasFate(b, k, f) <==> HasFate(a, k, f);
    }
  }

  lemma SendNumbered(topo: Topology, net: set<Packet>, n: nat, st: NodeState, id: nat, ok: bool)
    requires Numbered(topo, net, n, st) && st.tx.Stamped?
    ensures var packet := Packet(n, st.tx.peer.addr, Req(RequestOf(st, id)));
            Numbered(topo, if ok then net + {packet} else net, n, Send(st, ok))
  {
    if st.allocs <= SEQ_SPACE {
      assert HasFate(st, st.tx.seqNo, NotSent);
      SendConserved(st, ok);
      hide Conserved;
    }
  }

  lemma SendConserved(st: NodeState, ok: bool)
    requires Conserved(st) && st.tx.Stamped?
    ensures Conserved(Send(st, ok))
  {
    var st' := Send(st, ok);
    var m := st.tx.seqNo;
    assert HasFate(st, m, NotSent);
    assert AgreeExcept(st, st', m);
  }

  lemma InsertConserved(st: NodeState, now: int)
    requires Conserved(st) && st.tx.Sent?
    ensures Conserved(Insert(st, now))
  {
    var st' := Insert(st, now);
    var m := st.tx.seqNo;
    assert HasFate(st, m, SentNotInserted);
    assert AgreeExcept(st, st', m);
  }

  lemma CompleteConserved(st: NodeState)
    requires Conserved(st) && st.rx.Received?
    ensures Conserved(Complete(st))
  {
    var m := st.rx.resp.seqNo;
    if m !in st.pending {
      assert forall k, f :: HasFate(Complete(st), k, f) <==> HasFate(st, k, f);
    } else if st.pending[m].peerId != st.rx.resp.serverId {
      assert HasFate(st, m, Pending);
      assert !HasFate(st, m, SentNotInserted) && !HasFate(st, m, Sampled);
      assert AgreeExcept(st, Complete(st), m);
    } else {
      SampleConserved(st, m);
    }
  }

  lemma SampleConserved(st: NodeState, m: nat)
    requires Conserved(st) && st.rx.Received? && m == st.rx.resp.seqNo
    requires m in st.pending && st.pending[m].peerId == st.rx.resp.serverId
    ensures Conserved(Complete(st))
  {
    var st' := Complete(st);
    var x := SampleOf(st, st.pending[m]);
    assert HasFate(st, m, Pending);
    assert !HasFate(st, m, SentNotInserted) && !HasFate(st, m, Sampled);
    assert st'.samples == st.samples + [x] && x.seqNo == m;
    SeqNosAppend(st.samples, x);
    assert AgreeExcept(st, st', m);
    forall i | 0 <= i < |st.samples| ensures st.samples[i].seqNo != m {
      assert st.samples[i].seqNo in SeqNos(st.samples);
    }
    hide SeqNos;
    assert forall k :: HasFate(st', k, Sampled) <==> k in SeqNos(st'.samples);
  }

  lemma CleanupConserved(st: NodeState, now: int)
    requires Conserved(st)
    ensures Conserved(Cleanup(st, now))
  {
    hide SeqNos;
    var st' := Cleanup(st, now);
    var gone := Overdue(st.pending, now);
    forall k | k in gone
      ensures HasFate(st, k, Pending) && HasFate(st', k, Expired)
      ensures !HasFate(st, k, SentNotInserted) && !HasFate(st, k, Sampled)
    {
    }
    forall k, f | k !in gone ensures HasFate(st', k, f) <==> HasFate(st, k, f) {}
    assert gone <= st.fate.Keys by {
      assert forall k :: k in gone ==> HasFate(st, k, Pending);
    }
    assert st'.fate.Keys == st.fate.Keys;
  }

  lemma InsertNumbered(topo: Topology, net: set<Packet>, n: nat, st: NodeState, now: int)
    requires Numbered(topo, net, n, st) && st.tx.Sent?
    ensures Numbered(topo, net, n, Insert(st, now))
  {
    if st.allocs <= SEQ_SPACE {
      InsertConserved(st, now);
      hide Conserved;
      if Guarded(topo, n) { RequestsKept(net, n, st, Insert(st, now)); }
    }
  }

  lemma CompleteNumbered(topo: Topology, net: set<Packet>, n: nat, st: NodeState)
    requires Numbered(topo, net, n, st) && st.rx.Received?
    ensures Numbered(topo, net, n, Complete(st))
  {
    if st.allocs <= SEQ_SPACE {
      CompleteConserved(st);
      hide Conserved;
      if Guarded(topo, n) { RequestsKept(net, n, st, Complete(st)); }
    }
  }

  lemma CleanupNumbered(topo: Topology, net: set<Packet>, n: nat, st: NodeState, now: int)
    requires Numbered(topo, net, n, st)
    ensures Numbered(topo, net, n, Cleanup(st, now))
  {
    if st.allocs <= SEQ_SPACE {
      CleanupConserved(st, now);
      hide Conserved, RequestsUnique, Guarded;
      if Guarded(topo, n) { RequestsKept(net, n, st, Cleanup(st, now)); }
    }
  }

  /** The receiving phase does not take part. */
  lemma RxIrrelevant(topo: Topology, net: set<Packet>, n: nat, st: NodeState, rx: RxPhase)
    requires Numbered(topo, net, n, st)
    ensures Numbered(topo, net, n, st.(rx := rx))
  {
    assert forall k, f :: HasFate(st.(rx := rx), k, f) <==> HasFate(st, k, f);
  }

  /** Messages that are not requests of n do not concern it. */
  lemma OtherTraffic(topo: Topology, net: set<Packet>, net': set<Packet>, n: nat, st: NodeState)
    requires Numbered(topo, net, n, st)
    requires Guarded(topo, n) ==> forall p :: p in net' && p !in net ==> p.src != n || p.msg.Resp?
    ensures Numbered(topo, net', n, st)
  {
  }

  lemma ActorNumbered(topo: Topology, s: System, step: Step, n: nat)
    requires AllNumbered(topo, s) && Enabled(topo, s, step) && !step.Tick? && step.n == n
    ensures n in Apply(topo, s, step).nodes
        && Numbered(topo, Apply(topo, s, step).net, n, Apply(topo, s, step).nodes[n])
  {
    var st := s.nodes[n];
    assert Numbered(topo, s.net, n, st);
    hide Numbered, AllNumbered, Send, Insert, Complete, Cleanup, Stamp;
    match step
    case StampStep(_, peer, readable) =>
      StampNumbered(topo, s.net, n, st, peer, if readable then Some(Clock(topo, n, s.now)) else None);
    case SendStep(_, ok) => SendNumbered(topo, s.net, n, st, topo[n].id, ok);
    case InsertStep(_) => InsertNumbered(topo, s.net, n, st, s.now);
    case BeginServeStep(_, client, req) =>
      RxIrrelevant(topo, s.net, n, st, Serving(client, req, Clock(topo, n, s.now)));
    case FinishServeStep(_) =>
      RxIrrelevant(topo, s.net, n, st, RxIdle);
      OtherTraffic(topo, s.net, Apply(topo, s, step).net, n, FinishServe(st));
    case ReceiveStep(_, src, resp) => RxIrrelevant(topo, s.net, n, st, Received(src, resp, Clock(topo, n, s.now)));
    case CompleteStep(_) => CompleteNumbered(topo, s.net, n, st);
    case CleanupStep(_, at) => CleanupNumbered(topo, s.net, n, st, at);
    case ForgeStep(_, packet) => OtherTraffic(topo, s.net, Apply(topo, s, step).net, n, st);
  }

  lemma StepNumbered(topo: Topology, s: System, step: Step)
    requires AllNumbered(topo, s) && Enabled(topo, s, step)
    ensures AllNumbered(topo, Apply(topo, s, step))
  {
    hide Numbered, Send, Insert, Complete, Cleanup, Stamp;
    var s' := Apply(topo, s, step);
    forall n | n in topo ensures Numbered(topo, s'.net, n, s'.nodes[n]) {
      if !step.Tick? && step.n == n {
        ActorNumbered(topo, s, step, n);
      } else {
        OtherTraffic(topo, s.net, s'.net, n, s.nodes[n]);
      }
    }
  }

  lemma {:induction false} NumberedAlways(topo: Topology, start: int, steps: seq<Step>, s: System)
    requires Reaches(topo, start, steps, s)
    ensures AllNumbered(topo, s)
  {
    hide Apply, Enabled;
    if |steps| > 0 {
      var mid := Exec(topo, Init(topo, start), steps[..|steps| - 1]).value;
      NumberedAlways(topo, start, steps[..|steps| - 1], mid);
      StepNumbered(topo, mid, steps[|steps| - 1]);
    }
  }

  /** Conservation and at-most-once, in every reachable state of a node whose counter has not
      wrapped: the fates partition the issued numbers and agree with the node's own state,
      and no number has two samples. */
  lemma Conservation(topo: Topology, start: int, steps: seq<Step>, s: System, n: nat)
    requires Reaches(topo, start, steps, s) && n in topo && n in s.nodes && s.nodes[n].allocs <= SEQ_SPACE
    ensures Conserved(s.nodes[n])
  {
    NumberedAlways(topo, start, steps, s);
  }

  /** Cleanup at `now` expires exactly the pending numbers recorded more than 400 ms earlier,
      and leaves no such number pending. */
  lemma CleanupIsExact(st: NodeState, now: int, k: nat)
    requires Conserved(st)
    ensures k in Cleanup(st, now).pending <==> k in st.pending && now - st.pending[k].sentAt <= 400_000_000
    ensures k in Cleanup(st, now).pending ==> Cleanup(st, now).pending[k] == st.pending[k]
    ensures HasFate(Cleanup(st, now), k, Expired) && !HasFate(st, k, Expired) <==>
            k in st.pending && now - st.pending[k].sentAt > 400_000_000
  {
  }

  // ----- settled numbers stay settled

  predicate Settled(f: Fate) {
    f == Sampled || f == Mismatched || f == Expired
  }

  /** A settled number is neither about to be handed out, nor in the sender's hands, nor pending. */
  lemma SettledIsAside(topo: Topology, net: set<Packet>, n: nat, st: NodeState, k: nat, f: Fate)
    requires Numbered(topo, net, n, st) && st.allocs <= SEQ_SPACE && HasFate(st, k, f) && Settled(f)
    ensures k !in st.pending && (st.tx.TxIdle? || st.tx.seqNo != k)
    ensures st.allocs < SEQ_SPACE ==> st.next != k
  {
    hide SeqNos, RequestsUnique, Issued, Guarded;
    if st.allocs < SEQ_SPACE {
      NextIsFresh(st.allocs);
    }
    assert !HasFate(st, k, SentNotInserted) && !HasFate(st, k, Pending) && !HasFate(st, k, NotSent);
  }

  lemma SettledStep(topo: Topology, s: System, step: Step, n: nat, k: nat, f: Fate)
    requires AllNumbered(topo, s) && Enabled(topo, s, step) && n in topo
    requires HasFate(s.nodes[n], k, f) && Settled(f)
    requires n in Apply(topo, s, step).nodes && Apply(topo, s, step).nodes[n].allocs <= SEQ_SPACE
    ensures HasFate(Apply(topo, s, step).nodes[n], k, f)
  {
    hide Numbered, Guarded, MayForge, ComputeOffsetDelay, Next;
    AllocsGrow(topo, s, step, n);
    SettledIsAside(topo, s.net, n, s.nodes[n], k, f);
  }

  lemma AllocsGrow(topo: Topology, s: System, step: Step, n: nat)
    requires Enabled(topo, s, step) && n in s.nodes
    ensures n in Apply(topo, s, step).nodes && s.nodes[n].allocs <= Apply(topo, s, step).nodes[n].allocs
  {
  }

  /** Continuing a run never changes what was sampled, mismatched or expired, so a late or
      duplicate response cannot revive a number. */
  lemma {:induction false} SettledForever(topo: Topology, s: System, more: seq<Step>, s': System, n: nat,
      k: nat, f: Fate)
    requires AllNumbered(topo, s) && Exec(topo, s, more) == Some(s') && n in topo
    requires HasFate(s.nodes[n], k, f) && Settled(f)
    requires n in s'.nodes && s'.nodes[n].allocs <= SEQ_SPACE
    ensures AllNumbered(topo, s') && HasFate(s'.nodes[n], k, f)
  {
    hide Apply, Enabled, Numbered, HasFate;
    if |more| > 0 {
      var mid := Exec(topo, s, more[..|more| - 1]).value;
      var step := more[|more| - 1];
      ExecKeepsNumbered(topo, s, more[..|more| - 1], mid);
      AllocsGrow(topo, mid, step, n);
      SettledForever(topo, s, more[..|more| - 1], mid, n, k, f);
      SettledStep(topo, mid, step, n, k, f);
      StepNumbered(topo, mid, step);
    }
  }

  lemma {:induction false} ExecKeepsNumbered(topo: Topology, s: System, more: seq<Step>, s': System)
    requires AllNumbered(topo, s) && Exec(topo, s, more) == Some(s')
    ensures AllNumbered(topo, s')
  {
    hide Apply, Enabled, Numbered;
    if |more| > 0 {
      var mid := Exec(topo, s, more[..|more| - 1]).value;
      ExecKeepsNumbered(topo, s, more[..|more| - 1], mid);
      StepNumbered(topo, mid, more[|more| - 1]);
    }
  }

  lemma SettledIsNotSampledAgain(topo: Topology, s: System, n: nat, k: nat, i: nat)
    requires AllNumbered(topo, s) && n in topo && s.nodes[n].allocs <= SEQ_SPACE
    requires HasFate(s.nodes[n], k, Mismatched) && i < |s.nodes[n].samples|
    ensures s.nodes[n].samples[i].seqNo != k
  {
    assert Numbered(topo, s.net, n, s.nodes[n]);
    hide Numbered, RequestsUnique, Guarded, Issued;
    assert s.nodes[n].samples[i].seqNo in SeqNos(s.nodes[n].samples);
    assert !HasFate(s.nodes[n], k, Sampled);
  }

  /** What finishing a response does to a number pending under another id. */
  lemma MismatchNow(topo: Topology, s: System, n: nat)
    requires Enabled(topo, s, CompleteStep(n)) && s.nodes[n].rx.resp.seqNo in s.nodes[n].pending
    requires s.nodes[n].pending[s.nodes[n].rx.resp.seqNo].peerId != s.nodes[n].rx.resp.serverId
    ensures var k, st, after := s.nodes[n].rx.resp.seqNo, s.nodes[n], Apply(topo, s, CompleteStep(n));
            && after.nodes == s.nodes[n := after.nodes[n]] && after.net == s.net && after.now == s.now
            && after.nodes[n].pending.Keys == st.pending.Keys - {k}
            && (forall j :: j in st.pending && j != k ==> after.nodes[n].pending[j] == st.pending[j])
            && after.nodes[n].samples == st.samples && after.nodes[n].runtime == st.runtime
            && after.nodes[n].rx == RxIdle && after.nodes[n].tx == st.tx && after.nodes[n].next == st.next
            && after.nodes[n].fate == st.fate[k := Mismatched]
  {
  }

  /** A response that names the wrong server uses up the number it answers: the number is no
      longer pending, nothing is recorded, nothing else changes, and no continuation of the run
      before the counter wraps ever records a sample for it, whoever answers later. */
  lemma MismatchSettles(topo: Topology, start: int, steps: seq<Step>, s: System, n: nat,
      more: seq<Step>, s': System)
    requires Reaches(topo, start, steps, s) && Enabled(topo, s, CompleteStep(n))
    requires s.nodes[n].rx.resp.seqNo in s.nodes[n].pending
    requires s.nodes[n].pending[s.nodes[n].rx.resp.seqNo].peerId != s.nodes[n].rx.resp.serverId
    requires Exec(topo, Apply(topo, s, CompleteStep(n)), more) == Some(s')
    requires n in s'.nodes && s'.nodes[n].allocs <= 0x1_0000_0000
    ensures var k, st, after := s.nodes[n].rx.resp.seqNo, s.nodes[n], Apply(topo, s, CompleteStep(n)).nodes[n];
            && after.pending.Keys == st.pending.Keys - {k}
            && (forall j :: j in st.pending && j != k ==> after.pending[j] == st.pending[j])
            && after.samples == st.samples && after.runtime == st.runtime && after.rx == RxIdle
            && k in s'.nodes[n].fate && s'.nodes[n].fate[k] == Mismatched
            && k !in s'.nodes[n].pending
            && forall i :: 0 <= i < |s'.nodes[n].samples| ==> s'.nodes[n].samples[i].seqNo != k
  {
    var k, after := s.nodes[n].rx.resp.seqNo, Apply(topo, s, CompleteStep(n));
    MismatchNow(topo, s, n);
    NumberedAlways(topo, start, steps, s);
    StepNumbered(topo, s, CompleteStep(n));
    hide Exec, Apply, Complete, Numbered, Reaches;
    assert HasFate(after.nodes[n], k, Mismatched);
    SettledForever(topo, after, more, s', n, k, Mismatched);
    SettledIsAside(topo, s'.net, n, s'.nodes[n], k, Mismatched);
    forall i | 0 <= i < |s'.nodes[n].samples| ensures s'.nodes[n].samples[i].seqNo != k {
      SettledIsNotSampledAgain(topo, s', n, k, i);
    }
  }

  // ----- genuine exchanges

  /** The exchange a sample claims to be, in global time. */
  ghost function ExchangeOf(topo: Topology, n: nat, x: Sample): Exchange
    requires n in topo && x.src in topo
  {
    var here, there := topo[n].clock, topo[x.src].clock;
    Exchange(x.t1 - here, x.t2 - there, x.t3 - there, x.t4 - here, here, there)
  }

  /** The sample comes from one exchange: node n sent the request stamped t1 to the node at
      `src`, that node is honest, announces the sampled id and answered this very request with
      its own readings t2 and t3, and the four readings happened in causal order. */
  ghost predicate Genuine(topo: Topology, net: set<Packet>, n: nat, x: Sample) {
    && n in topo && x.src in topo && topo[x.src].id == x.peer && topo[x.src].conduct.Honest?
    && Packet(n, x.src, Req(TimeRequest(WIRE_VERSION, x.seqNo, topo[n].id, x.t1))) in net
    && Packet(x.src, n, Resp(TimeResponse(WIRE_VERSION, x.seqNo, x.peer, x.t1, x.t2, x.t3))) in net
    && ExchangeOf(topo, n, x).Causal()
    && ExchangeOf(topo, n, x).Calc() == PairCalc(x.delay, x.offset)
  }

  ghost predicate Announced(topo: Topology, id: nat) {
    exists m :: m in topo && topo[m].id == id
  }

  /** Node n can rely on answers under the id: no faulty node may give them, and, if any node
      announces the id, no faulty node asks it for them in n's name. */
  ghost predicate Trusted(topo: Topology, n: nat, id: nat) {
    Protected(topo, id) && (Announced(topo, id) ==> Guarded(topo, n))
  }

  /** A response under a trusted id comes from an honest node that announces it. */
  lemma TrustedAnswer(topo: Topology, s: System, n: nat, src: nat, r: TimeResponse)
    requires Inv(topo, s) && Trusted(topo, n, r.serverId) && Packet(src, n, Resp(r)) in s.net
    ensures src in topo && topo[src].id == r.serverId && topo[src].conduct.Honest? && Guarded(topo, n)
    ensures Packet(n, src, Req(TimeRequest(WIRE_VERSION, r.seqNo, topo[n].id, r.t1Echo))) in s.net
    ensures r.t1Echo - topo[n].clock <= r.t2 - topo[src].clock <= r.t3 - topo[src].clock
  {
    assert PacketOk(topo, s.net, s.now, Packet(src, n, Resp(r)));
    assert MayAnswer(topo[src], r.serverId);
  }

  /** A response under a trusted id that echoes the pending t1 makes the sample genuine,
      however often the counter has wrapped.  The code keeps the echo but never compares it. */
  lemma EchoMakesGenuine(topo: Topology, s: System, n: nat, i: nat)
    requires Inv(topo, s) && n in topo && i < |s.nodes[n].samples|
    requires Trusted(topo, n, s.nodes[n].samples[i].peer)
    requires s.nodes[n].samples[i].echo == s.nodes[n].samples[i].t1
    ensures Genuine(topo, s.net, n, s.nodes[n].samples[i])
  {
    var x := s.nodes[n].samples[i];
    assert SamplesOk(topo, s.net, n, s.nodes[n]);
    assert SampleOk(topo, s.net, n, x);
    hide Inv, WasSent, Protected, Guarded, Announced;
    TrustedAnswer(topo, s, n, x.src, TimeResponse(WIRE_VERSION, x.seqNo, x.peer, x.echo, x.t2, x.t3));
  }

  /** Before the counter wraps every accepted response under a trusted id echoes the pending t1. */
  lemma EchoMatches(topo: Topology, s: System, n: nat, i: nat)
    requires Inv(topo, s) && AllNumbered(topo, s) && n in topo && i < |s.nodes[n].samples|
    requires Trusted(topo, n, s.nodes[n].samples[i].peer) && s.nodes[n].allocs <= SEQ_SPACE
    ensures s.nodes[n].samples[i].echo == s.nodes[n].samples[i].t1
  {
    var x := s.nodes[n].samples[i];
    assert SamplesOk(topo, s.net, n, s.nodes[n]);
    assert SampleOk(topo, s.net, n, x);
    assert Numbered(topo, s.net, n, s.nodes[n]);
    hide Inv, Conserved, Protected, Guarded, Announced, Trusted;
    TrustedAnswer(topo, s, n, x.src, TimeResponse(WIRE_VERSION, x.seqNo, x.peer, x.echo, x.t2, x.t3));
    var asked := Packet(n, x.src, Req(TimeRequest(WIRE_VERSION, x.seqNo, topo[n].id, x.echo)));
    var a :| Packet(n, a, Req(TimeRequest(WIRE_VERSION, x.seqNo, topo[n].id, x.t1))) in s.net;
    var sent := Packet(n, a, Req(TimeRequest(WIRE_VERSION, x.seqNo, topo[n].id, x.t1)));
    assert SameNumber(asked, sent, n);
    assert asked == sent;
  }

  /** The genuine-exchange invariant over every run, whatever the faulty nodes send. */
  lemma SamplesAreGenuine(topo: Topology, start: int, steps: seq<Step>, s: System, n: nat, i: nat)
    requires Reaches(topo, start, steps, s) && n in topo && n in s.nodes && i < |s.nodes[n].samples|
    requires Trusted(topo, n, s.nodes[n].samples[i].peer) && s.nodes[n].allocs <= SEQ_SPACE
    ensures Genuine(topo, s.net, n, s.nodes[n].samples[i])
  {
    hide Genuine, Inv, AllNumbered, Trusted;
    InvAlways(topo, start, steps, s);
    NumberedAlways(topo, start, steps, s);
    EchoMatches(topo, s, n, i);
    EchoMakesGenuine(topo, s, n, i);
  }

  /** Hence the recorded offset is within half the recorded delay, plus rounding, of the true
      difference of the two clocks, and the recorded delay is the time spent on the wire. */
  lemma SamplesAreAccurate(topo: Topology, start: int, steps: seq<Step>, s: System, n: nat, i: nat)
    requires Reaches(topo, start, steps, s) && n in topo && n in s.nodes && i < |s.nodes[n].samples|
    requires Trusted(topo, n, s.nodes[n].samples[i].peer) && s.nodes[n].allocs <= SEQ_SPACE
    ensures var x := s.nodes[n].samples[i];
            && x.src in topo && topo[x.src].id == x.peer
            && x.delay == ExchangeOf(topo, n, x).PathDelay() >= 0
            && Near(x.offset, topo[x.src].clock - topo[n].clock, x.delay)
  {
    hide Inv, AllNumbered, Reaches, Trusted;
    SamplesAreGenuine(topo, start, steps, s, n, i);
    ExchangeAccuracy(ExchangeOf(topo, n, s.nodes[n].samples[i]));
  }
}
