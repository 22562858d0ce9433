/** The request/response protocol of one node, src/net/node.rs, cut into the atomic steps
    between its await points.  `NodeState` functions say what each step does; class `Node`
    performs it on the node's fields. */
module Protocol {
  import opened Wrappers
  import opened Jitter
  import opened TimeCalc

  const WIRE_VERSION := 1
  const SEQ_SPACE := 0x1_0000_0000
  const TIMEOUT_NS := 400_000_000

  // ----- messages, src/net/proto.rs

  datatype TimeRequest = TimeRequest(ver: nat, seqNo: nat, senderId: nat, t1: int)

  datatype TimeResponse = TimeResponse(ver: nat, seqNo: nat, serverId: nat, t1Echo: int, t2: int, t3: int)

  datatype Message = Req(req: TimeRequest) | Resp(resp: TimeResponse)

  // ----- state

  datatype PeerEntry = PeerEntry(id: nat, addr: nat)

  datatype PendingRequest = PendingRequest(peerId: nat, t1: int, sentAt: int)

  datatype PeerRuntime = PeerRuntime(lastDelay: int, lastOffset: int, lastJitter: nat)

  /** What a completed exchange writes to the store, with the timestamps it came from. */
  datatype Sample = Sample(
    peer: nat, src: nat, seqNo: nat, echo: int,
    t1: int, t2: int, t3: int, t4: int,
    offset: int, delay: int, jitter: nat)

  /** The sending task: idle, holding a stamped request, or sent but not yet recorded. */
  datatype TxPhase = TxIdle | Stamped(seqNo: nat, peer: PeerEntry, t1: int) | Sent(seqNo: nat, peerId: nat, t1: int)

  /** The receiving task: idle, between the two clock reads of a reply, or holding a response. */
  datatype RxPhase =
    | RxIdle
    | Serving(client: nat, req: TimeRequest, t2: int)
    | Received(src: nat, resp: TimeResponse, t4: int)

  /** What has become of an allocated sequence number. */
  datatype Fate = NotSent | SentNotInserted | Pending | Sampled | Mismatched | Expired

  datatype NodeState = NodeState(
    next: nat,
    tx: TxPhase,
    rx: RxPhase,
    pending: map<nat, PendingRequest>,
    runtime: map<nat, PeerRuntime>,
    samples: seq<Sample>,
    allocs: nat,
    fate: map<nat, Fate>)

  const INITIAL := NodeState(1, TxIdle, RxIdle, map[], map[], [], 0, map[])

  // ----- the steps

  /** `seq.fetch_add(1)` on a 32-bit counter. */
  function Allocate(st: NodeState): NodeState {
    st.(next := (st.next + 1) % SEQ_SPACE, allocs := st.allocs + 1, fate := st.fate[st.next := NotSent])
  }

  /** Allocation followed by the clock read; when the read fails the number is abandoned. */
  function Stamp(st: NodeState, peer: PeerEntry, t1: Option<int>): NodeState {
    match t1
    case None => Allocate(st)
    case Some(t) => Allocate(st).(tx := Stamped(st.next, peer, t))
  }

  function RequestOf(st: NodeState, id: nat): TimeRequest
    requires st.tx.Stamped?
  {
    TimeRequest(WIRE_VERSION, st.tx.seqNo, id, st.tx.t1)
  }

  function Send(st: NodeState, ok: bool): NodeState
    requires st.tx.Stamped?
  {
    if ok then st.(tx := Sent(st.tx.seqNo, st.tx.peer.id, st.tx.t1), fate := st.fate[st.tx.seqNo := SentNotInserted])
    else st.(tx := TxIdle)
  }

  /** The pending entry is recorded only after the request has left. */
  function Insert(st: NodeState, now: int): NodeState
    requires st.tx.Sent?
  {
    st.(tx := TxIdle,
        pending := st.pending[st.tx.seqNo := PendingRequest(st.tx.peerId, st.tx.t1, now)],
        fate := st.fate[st.tx.seqNo := Pending])
  }

  function BeginServe(st: NodeState, client: nat, req: TimeRequest, t2: int): NodeState {
    if req.ver != WIRE_VERSION then st else st.(rx := Serving(client, req, t2))
  }

  function ResponseOf(st: NodeState, id: nat, t3: int): TimeResponse
    requires st.rx.Serving?
  {
    TimeResponse(WIRE_VERSION, st.rx.req.seqNo, id, st.rx.req.t1, st.rx.t2, t3)
  }

  function FinishServe(st: NodeState): NodeState {
    st.(rx := RxIdle)
  }

  function Receive(st: NodeState, src: nat, resp: TimeResponse, t4: int): NodeState {
    if resp.ver != WIRE_VERSION then st else st.(rx := Received(src, resp, t4))
  }

  function LastDelay(st: NodeState, peer: nat): Option<int> {
    if peer in st.runtime then Some(st.runtime[peer].lastDelay) else None
  }

  function SampleOf(st: NodeState, p: PendingRequest): Sample
    requires st.rx.Received?
  {
    var r := st.rx.resp;
    var pair := ComputeOffsetDelay(p.t1, r.t2, r.t3, st.rx.t4);
    Sample(r.serverId, st.rx.src, r.seqNo, r.t1Echo, p.t1, r.t2, r.t3, st.rx.t4,
           pair.offset, pair.delay, Next(LastDelay(st, r.serverId), pair.delay))
  }

  /** The pending entry is removed before the server id is checked. */
  function Complete(st: NodeState): NodeState
    requires st.rx.Received?
  {
    var k := st.rx.resp.seqNo;
    if k !in st.pending then st.(rx := RxIdle)
    else
      var p := st.pending[k];
      var taken := st.(rx := RxIdle, pending := st.pending - {k});
      if p.peerId != st.rx.resp.serverId then taken.(fate := st.fate[k := Mismatched])
      else
        var x := SampleOf(st, p);
        taken.(fate := st.fate[k := Sampled],
               runtime := st.runtime[x.peer := PeerRuntime(x.delay, x.offset, x.jitter)],
               samples := st.samples + [x])
  }

  predicate TimedOut(req: PendingRequest, now: int) {
    now - req.sentAt > TIMEOUT_NS
  }

  function Overdue(pending: map<nat, PendingRequest>, now: int): set<nat> {
    set k | k in pending && TimedOut(pending[k], now)
  }

  function Cleanup(st: NodeState, now: int): NodeState {
    var gone := Overdue(st.pending, now);
    st.(pending := st.pending - gone,
        fate := st.fate + map k | k in gone :: Expired)
  }

  // ----- the node

  class Node {
    const id: nat
    var next: nat
    var tx: TxPhase
    var rx: RxPhase
    var pending: map<nat, PendingRequest>
    var runtime: map<nat, PeerRuntime>
    var samples: seq<Sample>
    ghost var allocs: nat
    ghost var fate: map<nat, Fate>

    ghost function View(): NodeState
      reads this
    {
      NodeState(next, tx, rx, pending, runtime, samples, allocs, fate)
    }

    constructor (id: nat)
      ensures View() == INITIAL && this.id == id
      ensures next == 1 && tx == TxIdle && rx == RxIdle && pending == map[] && runtime == map[] && samples == []
    {
      this.id := id;
      next, tx, rx, pending, runtime, samples := 1, TxIdle, RxIdle, map[], map[], [];
      allocs, fate := 0, map[];
    }

    /** Takes the next number, which wraps at 2^32, and keeps it only if the clock could be read. */
    method StampRequest(peer: PeerEntry, t1: Option<int>)
      modifies `next, `tx, `allocs, `fate
      ensures View() == Stamp(old(View()), peer, t1)
      ensures next == (old(next) + 1) % 0x1_0000_0000
      ensures tx == if t1.Some? then Stamped(old(next), peer, t1.value) else old(tx)
    {
      var seqNo := next;
      next := (next + 1) % SEQ_SPACE;
      allocs, fate := allocs + 1, fate[seqNo := NotSent];
      if t1.Some? {
        tx := Stamped(seqNo, peer, t1.value);
      }
    }

    /** The request of version 1 that goes out; a failed send drops the number. */
    method SendRequest(ok: bool) returns (req: TimeRequest)
      requires tx.Stamped?
      modifies `tx, `fate
      ensures View() == Send(old(View()), ok) && req == RequestOf(old(View()), id)
      ensures req.ver == 1 && req.seqNo == old(tx.seqNo) && req.senderId == id && req.t1 == old(tx.t1)
      ensures ok ==> tx.Sent? && tx.seqNo == req.seqNo && tx.peerId == old(tx.peer.id) && tx.t1 == req.t1
      ensures !ok ==> tx == TxIdle
    {
      req := TimeRequest(WIRE_VERSION, tx.seqNo, id, tx.t1);
      if ok {
        fate := fate[tx.seqNo := SentNotInserted];
        tx := Sent(tx.seqNo, tx.peer.id, tx.t1);
      } else {
        tx := TxIdle;
      }
    }

    method InsertPending(now: int)
      requires tx.Sent?
      modifies `tx, `pending, `fate
      ensures View() == Insert(old(View()), now)
      ensures tx == TxIdle && pending.Keys == old(pending.Keys) + {old(tx.seqNo)}
      ensures pending[old(tx.seqNo)] == PendingRequest(old(tx.peerId), old(tx.t1), now)
      ensures forall k :: k in pending && k != old(tx.seqNo) ==> pending[k] == old(pending)[k]
    {
      pending := pending[tx.seqNo := PendingRequest(tx.peerId, tx.t1, now)];
      fate := fate[tx.seqNo := Pending];
      tx := TxIdle;
    }

    /** Only requests of version 1 are answered. */
    method HandleRequestBegin(client: nat, req: TimeRequest, t2: int)
      modifies `rx
      ensures View() == BeginServe(old(View()), client, req, t2)
      ensures rx == if req.ver == 1 then Serving(client, req, t2) else old(rx)
    {
      if req.ver != WIRE_VERSION {
        return;
      }
      rx := Serving(client, req, t2);
    }

    method HandleRequestFinish(t3: int) returns (resp: TimeResponse)
      requires rx.Serving?
      modifies `rx
      ensures View() == FinishServe(old(View())) && resp == ResponseOf(old(View()), id, t3)
      ensures resp.ver == 1 && resp.seqNo == old(rx.req.seqNo) && resp.serverId == id
      ensures resp.t1Echo == old(rx.req.t1) && resp.t2 == old(rx.t2) && resp.t3 == t3
      ensures rx == RxIdle
    {
      resp := TimeResponse(WIRE_VERSION, rx.req.seqNo, id, rx.req.t1, rx.t2, t3);
      rx := RxIdle;
    }

    method HandleResponseBegin(src: nat, resp: TimeResponse, t4: int)
      modifies `rx
      ensures View() == Receive(old(View()), src, resp, t4)
      ensures rx == if resp.ver == 1 then Received(src, resp, t4) else old(rx)
    {
      if resp.ver != WIRE_VERSION {
        return;
      }
      rx := Received(src, resp, t4);
    }

    /** Whatever the answer is, its number is no longer pending; a sample is recorded exactly
        when the number was pending under the id that answers. */
    method HandleResponseFinish()
      requires rx.Received?
      modifies `rx, `pending, `runtime, `samples, `fate
      ensures View() == Complete(old(View()))
      ensures rx == RxIdle && pending == old(pending) - {old(rx.resp.seqNo)}
      ensures var k, id := old(rx.resp.seqNo), old(rx.resp.serverId);
              if k in old(pending) && old(pending)[k].peerId == id then
                && |samples| == |old(samples)| + 1 && samples[..|old(samples)|] == old(samples)
                && var x, p := samples[|old(samples)|], old(pending)[k];
                && x.peer == id && x.src == old(rx.src) && x.seqNo == k && x.echo == old(rx.resp.t1Echo)
                && x.t1 == p.t1 && x.t2 == old(rx.resp.t2) && x.t3 == old(rx.resp.t3) && x.t4 == old(rx.t4)
                && x.delay == (x.t4 - x.t1) - (x.t3 - x.t2)
                && -1 <= 2 * x.offset - ((x.t2 - x.t1) + (x.t3 - x.t4)) <= 1
                && x.jitter == (if id !in old(runtime) then 0
                                else if x.delay < old(runtime)[id].lastDelay then old(runtime)[id].lastDelay - x.delay
                                else x.delay - old(runtime)[id].lastDelay)
                && runtime == old(runtime)[id := PeerRuntime(x.delay, x.offset, x.jitter)]
                && fate == old(fate)[k := Sampled]
              else
                && samples == old(samples) && runtime == old(runtime)
                && fate == if k in old(pending) then old(fate)[k := Mismatched] else old(fate)
    {
      var r, src, t4 := rx.resp, rx.src, rx.t4;
      rx := RxIdle;
      if r.seqNo !in pending {
        return;
      }
      var p := pending[r.seqNo];
      pending := pending - {r.seqNo};
      if p.peerId != r.serverId {
        fate := fate[r.seqNo := Mismatched];
        return;
      }
      var pair := ComputeOffsetDelay(p.t1, r.t2, r.t3, t4);
      var last := if r.serverId in runtime then Some(runtime[r.serverId].lastDelay) else None;
      var jitter := Next(last, pair.delay);
      runtime := runtime[r.serverId := PeerRuntime(pair.delay, pair.offset, jitter)];
      var x := Sample(r.serverId, src, r.seqNo, r.t1Echo, p.t1, r.t2, r.t3, t4, pair.offset, pair.delay, jitter);
      samples := samples + [x];
      fate := fate[r.seqNo := Sampled];
    }

    /** Removes exactly the entries older than the timeout and returns each of them once. */
    method CleanupTimeouts(now: int) returns (expired: seq<PendingRequest>, ghost keys: seq<nat>)
      modifies `pending, `fate
      ensures View() == Cleanup(old(View()), now)
      ensures |keys| == |expired| && (set k | k in keys) == Overdue(old(pending), now)
      ensures forall i :: 0 <= i < |keys| ==> keys[i] in old(pending) && expired[i] == old(pending)[keys[i]]
      ensures forall i, j :: 0 <= i < j < |keys| ==> keys[i] != keys[j]
      ensures forall k :: k in keys <==> k in old(pending) && now - old(pending)[k].sentAt > 400_000_000
      ensures pending == old(pending) - set k | k in keys
    {
      expired, keys := [], [];
      var kept := pending;
      var unseen := pending.Keys;
      ghost var overdue := Overdue(pending, now);
      while unseen != {}
        invariant unseen <= pending.Keys && overdue == Overdue(pending, now)
        invariant kept == pending - (overdue - unseen)
        invariant |keys| == |expired|
        invariant forall k :: k in keys <==> k in overdue && k !in unseen
        invariant forall i :: 0 <= i < |keys| ==> keys[i] in pending && expired[i] == pending[keys[i]]
        invariant forall i, j :: 0 <= i < j < |keys| ==> keys[i] != keys[j]
        decreases unseen
      {
        var k :| k in unseen;
        if TimedOut(pending[k], now) {
          expired, keys := expired + [pending[k]], keys + [k];
          kept := kept - {k};
        }
        unseen := unseen - {k};
      }
      pending := kept;
      fate := fate + map k | k in overdue :: Expired;
    }
  }
}
