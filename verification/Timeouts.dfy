/** What the response timeout of src/net/node.rs guarantees over runs.  It is passed to
    `cleanup_timeouts` only, lines 176-182 and 342-361; `handle_response`, lines 288-302, never
    looks at the age of an entry. */
module Timeouts {
  import opened Wrappers
  import opened TimeCalc
  import opened Protocol
  import opened Network
  import opened ProtocolSafety
  import opened SeqWrap

  // ----- the failing run

  /** A reachable state with a sample whose response was read more than the timeout after its
      entry had been recorded: nodes 0 and 1, exact clocks, an answer that travels for
      TIMEOUT_NS + 1 and no cleanup on the way. */
  lemma LateSample() returns (steps: seq<Step>, before: System, s: System)
    ensures Reaches(Two(), 0, steps, before) && 0 in before.nodes && 1 in before.nodes[0].pending
    ensures before.now - before.nodes[0].pending[1].sentAt > TIMEOUT_NS
    ensures Enabled(Two(), before, CompleteStep(0)) && s == Apply(Two(), before, CompleteStep(0))
    ensures HasFate(s.nodes[0], 1, Sampled) && |s.nodes[0].samples| == 1
    ensures s.nodes[0].samples[0].t4 - before.nodes[0].pending[1].sentAt > TIMEOUT_NS
  {
    hide Exec, Reaches, ComputeOffsetDelay;
    var topo := Two();
    steps, s := FirstExchange();
    steps, s := Then(topo, 0, steps, s, Tick(TIMEOUT_NS + 1));
    steps, before := Then(topo, 0, steps, s, ReceiveStep(0, 1, Answer()));
    s := Apply(topo, before, CompleteStep(0));
  }

  // ----- the exact condition

  /** Some cleanup of node n found the entry recorded at `sentAt` overdue. */
  ghost predicate Swept(steps: seq<Step>, n: nat, sentAt: int) {
    exists i :: 0 <= i < |steps| && steps[i].CleanupStep? && steps[i].n == n && steps[i].at - sentAt > TIMEOUT_NS
  }

  /** During the run from s, node n handles no response numbered k to its end. */
  ghost predicate Unanswered(topo: Topology, s: System, more: seq<Step>, n: nat, k: nat) {
    |more| > 0 ==>
      var before, step := Exec(topo, s, more[..|more| - 1]), more[|more| - 1];
      && Unanswered(topo, s, more[..|more| - 1], n, k)
      && (before.Some? && step == CompleteStep(n) && n in before.value.nodes && before.value.nodes[n].rx.Received? ==>
            before.value.nodes[n].rx.resp.seqNo != k)
  }

  ghost predicate SameEntry(st: NodeState, st': NodeState, k: nat) {
    k in st.pending && k in st'.pending && st'.pending[k] == st.pending[k]
  }

  lemma SweptStep(more: seq<Step>, n: nat, sentAt: int)
    requires |more| > 0
    ensures var last := more[|more| - 1];
            Swept(more, n, sentAt) <==>
              || Swept(more[..|more| - 1], n, sentAt)
              || (last.CleanupStep? && last.n == n && last.at - sentAt > TIMEOUT_NS)
  {
    var before := more[..|more| - 1];
    if Swept(before, n, sentAt) {
      var i :| 0 <= i < |before| && before[i].CleanupStep? && before[i].n == n && before[i].at - sentAt > TIMEOUT_NS;
      assert more[i] == before[i];
    }
    if Swept(more, n, sentAt) {
      var i :| 0 <= i < |more| && more[i].CleanupStep? && more[i].n == n && more[i].at - sentAt > TIMEOUT_NS;
      if i < |before| {
        assert before[i] == more[i];
      }
    }
  }

  lemma PendingIsAside(topo: Topology, net: set<Packet>, n: nat, st: NodeState, k: nat)
    requires Numbered(topo, net, n, st) && st.allocs <= SEQ_SPACE && k in st.pending
    ensures st.tx.Sent? ==> st.tx.seqNo != k
  {
    assert HasFate(st, k, Pending);
    assert st.tx.Sent? ==> HasFate(st, st.tx.seqNo, SentNotInserted);
  }

  /** The other steps of a node leave its pending entries alone. */
  lemma QuietEntry(st: NodeState, k: nat)
    requires k in st.pending
    ensures SameEntry(st, st, k) && SameEntry(st, FinishServe(st), k)
    ensures forall peer, t1 :: SameEntry(st, Stamp(st, peer, t1), k)
    ensures st.tx.Stamped? ==> forall ok :: SameEntry(st, Send(st, ok), k)
    ensures st.tx.Sent? && st.tx.seqNo != k ==> forall now :: SameEntry(st, Insert(st, now), k)
    ensures forall client, req, t2 :: SameEntry(st, BeginServe(st, client, req, t2), k)
    ensures forall src, resp, t4 :: SameEntry(st, Receive(st, src, resp, t4), k)
  {
  }

  lemma CleanupEntry(st: NodeState, now: int, k: nat)
    requires k in st.pending
    ensures if now - st.pending[k].sentAt > TIMEOUT_NS then HasFate(Cleanup(st, now), k, Expired)
            else SameEntry(st, Cleanup(st, now), k)
  {
  }

  lemma CompleteEntry(st: NodeState, k: nat)
    requires k in st.pending && st.rx.Received? && st.rx.resp.seqNo != k
    ensures SameEntry(st, Complete(st), k)
  {
    hide ComputeOffsetDelay;
  }

  /** One step leaves a pending entry alone, unless it is a cleanup that finds it overdue or
      the end of handling a response with its number. */
  lemma PendingStep(topo: Topology, s: System, step: Step, n: nat, k: nat)
    requires AllNumbered(topo, s) && Enabled(topo, s, step) && n in topo && k in s.nodes[n].pending
    requires s.nodes[n].allocs <= SEQ_SPACE
    requires step == CompleteStep(n) ==> s.nodes[n].rx.resp.seqNo != k
    ensures n in Apply(topo, s, step).nodes
    ensures var swept := step.CleanupStep? && step.n == n && step.at - s.nodes[n].pending[k].sentAt > TIMEOUT_NS;
            var st' := Apply(topo, s, step).nodes[n];
            if swept then HasFate(st', k, Expired) else SameEntry(s.nodes[n], st', k)
  {
    assert Numbered(topo, s.net, n, s.nodes[n]);
    hide Numbered, MayForge, Cleanup, Complete, HasFate, Stamp, Send, Insert, BeginServe, FinishServe, Receive,
        SameEntry;
    QuietEntry(s.nodes[n], k);
    PendingIsAside(topo, s.net, n, s.nodes[n], k);
    if step.CleanupStep? && step.n == n {
      CleanupEntry(s.nodes[n], step.at, k);
    } else if step == CompleteStep(n) {
      CompleteEntry(s.nodes[n], k);
    }
  }

  /** While node n has not answered it, an entry is pending exactly as long as no cleanup has
      found it overdue; from then on its number is expired. */
  lemma {:induction false} PendingUntilSwept(topo: Topology, s: System, more: seq<Step>, s': System, n: nat, k: nat)
    requires AllNumbered(topo, s) && Exec(topo, s, more) == Some(s') && n in topo && n in s'.nodes
    requires k in s.nodes[n].pending && s'.nodes[n].allocs <= SEQ_SPACE && Unanswered(topo, s, more, n, k)
    ensures if Swept(more, n, s.nodes[n].pending[k].sentAt) then HasFate(s'.nodes[n], k, Expired)
            else SameEntry(s.nodes[n], s'.nodes[n], k)
  {
    if |more| > 0 {
      var before, step := more[..|more| - 1], more[|more| - 1];
      var mid := Exec(topo, s, before).value;
      var sentAt := s.nodes[n].pending[k].sentAt;
      hide Numbered, HasFate, Swept, Apply;
      ExecKeepsNumbered(topo, s, before, mid);
      AllocsGrow(topo, mid, step, n);
      PendingUntilSwept(topo, s, before, mid, n, k);
      SweptStep(more, n, sentAt);
      if Swept(before, n, sentAt) {
        SettledStep(topo, mid, step, n, k, Expired);
      } else {
        PendingStep(topo, mid, step, n, k);
      }
    }
  }

  lemma MatchingResponse(st: NodeState)
    requires st.rx.Received?
    requires st.rx.resp.seqNo in st.pending ==> st.pending[st.rx.resp.seqNo].peerId == st.rx.resp.serverId
    requires !HasFate(st, st.rx.resp.seqNo, Sampled)
    ensures HasFate(Complete(st), st.rx.resp.seqNo, Sampled) <==> st.rx.resp.seqNo in st.pending
  {
  }

  /** The exact condition over runs.  Take any state in which number k is pending at node n, and
      any continuation at whose end the node holds the first response to k, from the expected
      server.  However late it is, the response is sampled if and only if no cleanup of the
      node found the entry overdue in between. */
  lemma SampledExactlyUnlessSwept(topo: Topology, start: int, steps: seq<Step>, s: System,
                                  more: seq<Step>, s': System, n: nat, k: nat)
    requires Reaches(topo, start, steps, s) && n in topo && n in s.nodes && k in s.nodes[n].pending
    requires Exec(topo, s, more) == Some(s') && Unanswered(topo, s, more, n, k)
    requires n in s'.nodes && s'.nodes[n].allocs <= SEQ_SPACE && s'.nodes[n].rx.Received?
    requires s'.nodes[n].rx.resp.seqNo == k && s'.nodes[n].rx.resp.serverId == s.nodes[n].pending[k].peerId
    ensures HasFate(Complete(s'.nodes[n]), k, Sampled) <==> !Swept(more, n, s.nodes[n].pending[k].sentAt)
  {
    hide Reaches, Exec, Numbered, Swept, Unanswered, Complete;
    NumberedAlways(topo, start, steps, s);
    ExecKeepsNumbered(topo, s, more, s');
    PendingUntilSwept(topo, s, more, s', n, k);
    FatesExclude(topo, s'.net, n, s'.nodes[n], k);
    MatchingResponse(s'.nodes[n]);
  }

  lemma FatesExclude(topo: Topology, net: set<Packet>, n: nat, st: NodeState, k: nat)
    requires Numbered(topo, net, n, st) && st.allocs <= SEQ_SPACE
    ensures k in st.pending ==> HasFate(st, k, Pending)
    ensures HasFate(st, k, Expired) ==> k !in st.pending && !HasFate(st, k, Sampled)
    ensures HasFate(st, k, Pending) ==> !HasFate(st, k, Sampled)
  {
    assert HasFate(st, k, Pending) <==> k in st.pending;
  }

  // ----- how old an accepted entry can be

  /** A cleanup time, once used, is never in the future. */
  lemma {:induction false} TimePasses(topo: Topology, start: int, steps: seq<Step>, s: System, i: nat)
    requires Reaches(topo, start, steps, s) && i < |steps| && steps[i].CleanupStep?
    ensures steps[i].at <= s.now
  {
    if i < |steps| - 1 {
      var before := steps[..|steps| - 1];
      assert before[i] == steps[i];
      TimePasses(topo, start, before, Exec(topo, Init(topo, start), before).value, i);
      hide Exec;
    }
  }

  /** A pending entry was pending before the step, and survived it if it was a cleanup, or has
      just been recorded. */
  lemma PendingOrigin(topo: Topology, s: System, step: Step, n: nat, k: nat)
    requires Enabled(topo, s, step) && n in s.nodes
    requires n in Apply(topo, s, step).nodes && k in Apply(topo, s, step).nodes[n].pending
    ensures var st' := Apply(topo, s, step).nodes[n];
            || (SameEntry(s.nodes[n], st', k)
                && (step.CleanupStep? && step.n == n ==> step.at - st'.pending[k].sentAt <= TIMEOUT_NS))
            || (!step.CleanupStep? && st'.pending[k].sentAt == s.now)
  {
    hide MayForge, ComputeOffsetDelay;
  }

  /** A pending entry has survived every cleanup of its node. */
  lemma {:induction false} PendingAge(topo: Topology, start: int, steps: seq<Step>, s: System, n: nat, k: nat, i: nat)
    requires Reaches(topo, start, steps, s) && n in topo && n in s.nodes && k in s.nodes[n].pending
    requires i < |steps| && steps[i].CleanupStep? && steps[i].n == n
    ensures steps[i].at - s.nodes[n].pending[k].sentAt <= TIMEOUT_NS
  {
    var before, step := steps[..|steps| - 1], steps[|steps| - 1];
    var mid := Exec(topo, Init(topo, start), before).value;
    assert n in mid.nodes by {
      hide MayForge, Complete, Cleanup;
    }
    hide Apply;
    PendingOrigin(topo, mid, step, n, k);
    if i < |steps| - 1 {
      assert before[i] == steps[i];
      if SameEntry(mid.nodes[n], s.nodes[n], k) {
        PendingAge(topo, start, before, mid, n, k, i);
      } else {
        TimePasses(topo, start, before, mid, i);
      }
    }
  }

  /** Whenever handling a response records a sample, the age of its entry is at most the timeout
      plus the time since the node's last cleanup, or since any earlier one. */
  lemma AcceptedAge(topo: Topology, start: int, steps: seq<Step>, s: System, n: nat, i: nat)
    requires Reaches(topo, start, steps, s) && Enabled(topo, s, CompleteStep(n))
    requires |Complete(s.nodes[n]).samples| > |s.nodes[n].samples|
    requires i < |steps| && steps[i].CleanupStep? && steps[i].n == n
    ensures s.nodes[n].rx.resp.seqNo in s.nodes[n].pending
    ensures s.now - s.nodes[n].pending[s.nodes[n].rx.resp.seqNo].sentAt <= TIMEOUT_NS + (s.now - steps[i].at)
  {
    hide Reaches, ComputeOffsetDelay;
    PendingAge(topo, start, steps, s, n, s.nodes[n].rx.resp.seqNo, i);
  }
}
