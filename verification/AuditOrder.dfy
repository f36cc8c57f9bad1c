/**
 Order and limits of the audit queue, in every run: entries leave the channel in the order
 in which they were accepted, neither channel outgrows its capacity, full batches are
 flushed, every producer's entry is accepted or written to the fallback file, and Shutdown
 can complete.
 */
module AuditOrder {
  import opened Wrappers
  import opened AuditQueue

  // --------------------------------------------------------------------- order

  predicate Fifo(accepted: seq<AuditEntry>, taken: seq<AuditEntry>, queue: seq<AuditEntry>) {
    accepted == taken + queue
  }

  /** all is a merge of a and b. */
  predicate IsMerge(all: seq<AuditEntry>, a: seq<AuditEntry>, b: seq<AuditEntry>)
    decreases |all|
  {
    if all == [] then a == [] && b == []
    else
      var before, last := all[..|all| - 1], all[|all| - 1];
      || (a != [] && a[|a| - 1] == last && IsMerge(before, a[..|a| - 1], b))
      || (b != [] && b[|b| - 1] == last && IsMerge(before, a, b[..|b| - 1]))
  }

  lemma MergeAppend(all: seq<AuditEntry>, a: seq<AuditEntry>, b: seq<AuditEntry>, e: AuditEntry)
    requires IsMerge(all, a, b)
    ensures IsMerge(all + [e], a + [e], b) && IsMerge(all + [e], a, b + [e])
  {
    assert (all + [e])[..|all|] == all && (a + [e])[..|a|] == a && (b + [e])[..|b|] == b;
  }

  /** What the workers are busy with is what they took and have not finished. */
  predicate HandsOk(taken: seq<AuditEntry>, finished: seq<AuditEntry>, hands: multiset<AuditEntry>) {
    multiset(taken) == multiset(finished) + hands
  }

  /** With one worker the finished entries are the first ones taken. */
  predicate SingleFile(workers: nat, taken: seq<AuditEntry>, finished: seq<AuditEntry>) {
    workers <= 1 ==> finished <= taken && |taken| <= |finished| + 1
  }

  predicate OrderInv(cfg: Config, s: State) {
    && Fifo(s.accepted, s.past.taken, s.q.queue)
    && HandsOk(s.past.taken, s.past.finished, s.hands)
    && SingleFile(cfg.workers, s.past.taken, s.past.finished)
    && IsMerge(s.past.finished, s.q.stored, s.q.given)
  }

  lemma PastFrame(cfg: Config, s: State, act: Action)
    requires Enabled(cfg, s, act) && !MovesEntry(act) && !act.Spill?
    ensures var past := Apply(cfg, s, act).past;
            past.taken == s.past.taken && past.finished == s.past.finished && past.spilled == s.past.spilled
  {}

  lemma SendPast(cfg: Config, s: State, p: nat)
    requires Enabled(cfg, s, TrySend(p))
    ensures Apply(cfg, s, TrySend(p)).past == s.past
  {}

  lemma FifoSend(accepted: seq<AuditEntry>, taken: seq<AuditEntry>, queue: seq<AuditEntry>, e: AuditEntry)
    requires Fifo(accepted, taken, queue)
    ensures Fifo(accepted + [e], taken, queue + [e])
  {}

  lemma FifoTake(accepted: seq<AuditEntry>, taken: seq<AuditEntry>, queue: seq<AuditEntry>)
    requires Fifo(accepted, taken, queue) && queue != []
    ensures Fifo(accepted, taken + [queue[0]], queue[1..])
  {}

  lemma HandsSize(taken: seq<AuditEntry>, finished: seq<AuditEntry>, hands: multiset<AuditEntry>)
    requires HandsOk(taken, finished, hands)
    ensures |taken| == |finished| + |hands|
  {
    assert |multiset(taken)| == |multiset(finished)| + |hands|;
  }

  lemma TakeOrder(cfg: Config, s: State)
    requires OrderInv(cfg, s) && Enabled(cfg, s, Take)
    ensures OrderInv(cfg, Apply(cfg, s, Take))
  {
    FifoTake(s.accepted, s.past.taken, s.q.queue);
    HandsSize(s.past.taken, s.past.finished, s.hands);
  }

  lemma OnlyHand(taken: seq<AuditEntry>, finished: seq<AuditEntry>, hands: multiset<AuditEntry>, e: AuditEntry)
    requires HandsOk(taken, finished, hands) && finished <= taken && |taken| <= |finished| + 1 && e in hands
    ensures taken == finished + [e]
  {
    HandsSize(taken, finished, hands);
    var last := taken[|taken| - 1];
    assert taken == finished + [last];
    assert multiset(taken)[e] == multiset(finished)[e] + hands[e];
    assert multiset(taken)[e] == multiset(finished)[e] + multiset{last}[e];
  }

  lemma FinishOrder(cfg: Config, s: State, act: Action)
    requires OrderInv(cfg, s) && act.Finish? && Enabled(cfg, s, act)
    ensures OrderInv(cfg, Apply(cfg, s, act))
  {
    FinishMoves(cfg, s, act.e, act.ok, act.fallbackOk);
    MergeAppend(s.past.finished, s.q.stored, s.q.given, act.e);
    if cfg.workers <= 1 {
      OnlyHand(s.past.taken, s.past.finished, s.hands, act.e);
    }
  }

  lemma OrderStep(cfg: Config, s: State, act: Action)
    requires OrderInv(cfg, s) && Enabled(cfg, s, act)
    ensures OrderInv(cfg, Apply(cfg, s, act))
  {
    if act.TrySend? {
      SendMoves(cfg, s, act.p);
      SendPast(cfg, s, act.p);
      FifoSend(s.accepted, s.past.taken, s.q.queue, s.producers[act.p].e);
    } else if act.Take? {
      TakeOrder(cfg, s);
    } else if act.Finish? {
      FinishOrder(cfg, s, act);
    } else {
      EntryFrame(cfg, s, act);
      if !act.Spill? {
        PastFrame(cfg, s, act);
      }
    }
  }

  lemma {:induction false} RunKeepsOrder(cfg: Config, acts: seq<Action>, s: State)
    requires RunFrom(cfg, INIT, acts) == Some(s)
    ensures OrderInv(cfg, s)
  {
    if acts != [] {
      var t := RunFrom(cfg, INIT, acts[..|acts| - 1]).value;
      RunKeepsOrder(cfg, acts[..|acts| - 1], t);
      OrderStep(cfg, t, acts[|acts| - 1]);
    }
  }

  /**
   Entries are taken in the order in which they were accepted. With a single worker they
   are also finished in that order, so the stored ones and the ones given up on are each a
   subsequence of the accepted ones, and together the first of them.
   */
  lemma EntriesLeaveInOrder(cfg: Config, acts: seq<Action>, s: State)
    requires RunFrom(cfg, INIT, acts) == Some(s)
    ensures s.accepted == s.past.taken + s.q.queue
    ensures IsMerge(s.past.finished, s.q.stored, s.q.given)
    ensures cfg.workers <= 1 ==> s.past.finished <= s.accepted
  {
    RunKeepsOrder(cfg, acts, s);
  }

  // -------------------------------------------------------------------- limits

  predicate WithinCapacity(cfg: Config, q: Queue) {
    |q.queue| <= cfg.capacity && |q.metrics| <= METRICS_CAPACITY
  }

  lemma CapacityEntryStep(cfg: Config, s: State, act: Action)
    requires WithinCapacity(cfg, s.q) && Enabled(cfg, s, act) && MovesEntry(act)
    ensures WithinCapacity(cfg, Apply(cfg, s, act).q)
  {
    EntryMetricFrame(cfg, s, act);
  }

  lemma CapacityStep(cfg: Config, s: State, act: Action)
    requires WithinCapacity(cfg, s.q) && Enabled(cfg, s, act)
    ensures WithinCapacity(cfg, Apply(cfg, s, act).q)
  {
    if MovesEntry(act) {
      CapacityEntryStep(cfg, s, act);
    } else {
      EntryFrame(cfg, s, act);
      if !MovesMetric(act) {
        MetricFrame(cfg, s, act);
      }
    }
  }

  /** Neither channel ever holds more than its capacity: the configured one, and 1000 metrics. */
  lemma {:induction false} ChannelsStayWithinCapacity(cfg: Config, acts: seq<Action>, s: State)
    requires RunFrom(cfg, INIT, acts) == Some(s)
    ensures |s.q.queue| <= cfg.capacity && |s.q.metrics| <= METRICS_CAPACITY
  {
    if acts != [] {
      var t := RunFrom(cfg, INIT, acts[..|acts| - 1]).value;
      ChannelsStayWithinCapacity(cfg, acts[..|acts| - 1], t);
      CapacityStep(cfg, t, acts[|acts| - 1]);
    }
  }

  predicate NoTicks(acts: seq<Action>) {
    forall i | 0 <= i < |acts| :: !acts[i].BatcherTick?
  }

  /** All batches, but for the one flushed on exit, are full. */
  predicate FullBatches(s: State) {
    && |s.q.batch| < BATCH_SIZE
    && forall i | 0 <= i < |s.q.flushed| - (if s.batcherExited then 1 else 0) :: |s.q.flushed[i]| == BATCH_SIZE
  }

  lemma FullBatchesStep(cfg: Config, s: State, act: Action)
    requires FullBatches(s) && Enabled(cfg, s, act) && !act.BatcherTick?
    ensures FullBatches(Apply(cfg, s, act))
  {
    if !MovesMetric(act) {
      MetricFrame(cfg, s, act);
      ExitFrame(cfg, s, act);
    }
  }

  lemma ExitFrame(cfg: Config, s: State, act: Action)
    requires Enabled(cfg, s, act) && !MovesMetric(act)
    ensures Apply(cfg, s, act).batcherExited == s.batcherExited
  {}

  /** Between ticks a batch is flushed when it has 100 metrics and not before; only the last one, on exit, may be short. */
  lemma {:induction false} BatchesFillUp(cfg: Config, acts: seq<Action>, s: State)
    requires RunFrom(cfg, INIT, acts) == Some(s) && NoTicks(acts)
    ensures FullBatches(s)
  {
    if acts != [] {
      var t := RunFrom(cfg, INIT, acts[..|acts| - 1]).value;
      BatchesFillUp(cfg, acts[..|acts| - 1], t);
      FullBatchesStep(cfg, t, acts[|acts| - 1]);
    }
  }

  // ---------------------------------------------------------- the fallback file

  /** The fallback file, with the writes that failed, holds what workers gave up on and what producers spilled, and nothing else. */
  predicate FallbackExact(given: seq<AuditEntry>, spilled: seq<AuditEntry>, fallback: seq<AuditEntry>, lost: multiset<AuditEntry>) {
    multiset(fallback) + lost == multiset(RetriedAll(given)) + multiset(spilled)
  }

  lemma FallbackExactGrows(given: seq<AuditEntry>, spilled: seq<AuditEntry>, fallback: seq<AuditEntry>, lost: multiset<AuditEntry>, e: AuditEntry)
    requires FallbackExact(given, spilled, fallback, lost)
    ensures FallbackExact(given, spilled + [e], fallback + [e], lost) && FallbackExact(given, spilled + [e], fallback, lost + multiset{e})
    ensures FallbackExact(given + [e], spilled, fallback + [Retried(e)], lost)
    ensures FallbackExact(given + [e], spilled, fallback, lost + multiset{Retried(e)})
  {
    var all := RetriedAll(given);
    assert (given + [e])[..|given|] == given;
    assert multiset(all + [Retried(e)]) == multiset(all) + multiset{Retried(e)};
    AddOnBothSides(multiset(fallback), lost, multiset(all), multiset(spilled), multiset{e});
    AddOnBothSides(multiset(fallback), lost, multiset(all), multiset(spilled), multiset{Retried(e)});
  }

  lemma AddOnBothSides(a: multiset<AuditEntry>, b: multiset<AuditEntry>, c: multiset<AuditEntry>, d: multiset<AuditEntry>, x: multiset<AuditEntry>)
    requires a + b == c + d
    ensures (a + x) + b == (c + x) + d == c + (d + x) == a + (b + x)
  {
    assert (a + x) + b == (a + b) + x == a + (b + x);
    assert (c + x) + d == (c + d) + x == c + (d + x);
  }

  lemma FallbackExactStep(cfg: Config, s: State, act: Action)
    requires FallbackExact(s.q.given, s.past.spilled, s.q.fallback, s.q.lost) && Enabled(cfg, s, act)
    ensures var s' := Apply(cfg, s, act); FallbackExact(s'.q.given, s'.past.spilled, s'.q.fallback, s'.q.lost)
  {
    if act.Finish? {
      FallbackExactGrows(s.q.given, s.past.spilled, s.q.fallback, s.q.lost, act.e);
    } else if act.Spill? {
      FallbackExactGrows(s.q.given, s.past.spilled, s.q.fallback, s.q.lost, s.producers[act.p].e);
    } else {
      SpilledFrame(cfg, s, act);
      if MovesMetric(act) {
        MetricFallbackFrame(cfg, s, act);
      } else {
        FallbackFrame(cfg, s, act);
      }
    }
  }

  lemma SpilledFrame(cfg: Config, s: State, act: Action)
    requires Enabled(cfg, s, act) && !act.Spill?
    ensures Apply(cfg, s, act).past.spilled == s.past.spilled
  {
    if !MovesEntry(act) {
      PastFrame(cfg, s, act);
    }
  }

  lemma {:induction false} FallbackFileIsExact(cfg: Config, acts: seq<Action>, s: State)
    requires RunFrom(cfg, INIT, acts) == Some(s)
    ensures FallbackExact(s.q.given, s.past.spilled, s.q.fallback, s.q.lost)
  {
    if acts != [] {
      var t := RunFrom(cfg, INIT, acts[..|acts| - 1]).value;
      FallbackFileIsExact(cfg, acts[..|acts| - 1], t);
      FallbackExactStep(cfg, t, acts[|acts| - 1]);
    }
  }

  /** A producer with an entry ends only by having it accepted or by writing it to the fallback file. */
  lemma EntryIsAcceptedOrSpilled(cfg: Config, s: State, act: Action, p: nat)
    requires Enabled(cfg, s, act) && p in s.producers && !s.producers[p].SendingMetric?
    ensures var s' := Apply(cfg, s, act);
            p !in s'.producers ==>
              || (s'.accepted == s.accepted + [s.producers[p].e] && s'.past == s.past)
              || (s'.past.spilled == s.past.spilled + [s.producers[p].e] && s'.accepted == s.accepted)
    ensures var s' := Apply(cfg, s, act);
            p in s'.producers ==> !s'.producers[p].SendingMetric? && s'.producers[p].e == s.producers[p].e
  {
    if !ByProducer(act) {
      ProducerFrame(cfg, s, act);
    } else {
      ProducerLeaves(cfg, s, act, p);
    }
  }

  lemma ProducerLeaves(cfg: Config, s: State, act: Action, p: nat)
    requires Enabled(cfg, s, act) && ByProducer(act) && p in s.producers && !s.producers[p].SendingMetric?
    ensures var s' := Apply(cfg, s, act);
            p !in s'.producers ==>
              || (s'.accepted == s.accepted + [s.producers[p].e] && s'.past == s.past)
              || (s'.past.spilled == s.past.spilled + [s.producers[p].e] && s'.accepted == s.accepted)
    ensures var s' := Apply(cfg, s, act);
            p in s'.producers ==> !s'.producers[p].SendingMetric? && s'.producers[p].e == s.producers[p].e
  {}

  /** Every call begun is under way, or its entry was accepted, spilled or, for a metric, dropped: never two of them. */
  predicate CallsCounted(s: State) {
    s.past.begun == |s.producers| + |s.accepted| + |s.acceptedMetrics| + |s.past.spilled| + s.past.dropped
  }

  lemma LeavingIsOneLess(producers: map<nat, Producer>, p: nat)
    requires p in producers
    ensures |producers - {p}| == |producers| - 1
  {
    assert (producers - {p}).Keys == producers.Keys - {p};
    assert |producers.Keys| == |producers| && |(producers - {p}).Keys| == |producers - {p}|;
  }

  lemma StayingIsAsMany(producers: map<nat, Producer>, p: nat, to: Producer)
    ensures |producers[p := to]| == |producers| + (if p in producers then 0 else 1)
  {
    assert producers[p := to].Keys == producers.Keys + {p};
    assert |producers.Keys| == |producers| && |producers[p := to].Keys| == |producers[p := to]|;
  }

  lemma ProducerCounts(cfg: Config, s: State, act: Action)
    requires CallsCounted(s) && Enabled(cfg, s, act) && ByProducer(act)
    ensures CallsCounted(Apply(cfg, s, act))
  {
    if act.p in s.producers {
      LeavingIsOneLess(s.producers, act.p);
    }
    if act.BeginEntry? || act.BeginMetric? {
      StayingIsAsMany(s.producers, act.p, Apply(cfg, s, act).producers[act.p]);
    } else if act.CheckClosed? || act.TrySend? {
      StayingIsAsMany(s.producers, act.p, Sending(s.producers[act.p].e));
      StayingIsAsMany(s.producers, act.p, Spilling(s.producers[act.p].e));
    }
  }

  lemma OtherCounts(cfg: Config, s: State, act: Action)
    requires Enabled(cfg, s, act) && !ByProducer(act)
    ensures var s' := Apply(cfg, s, act);
            && s'.accepted == s.accepted && s'.acceptedMetrics == s.acceptedMetrics
            && s'.past.begun == s.past.begun && s'.past.spilled == s.past.spilled && s'.past.dropped == s.past.dropped
  {}

  /** In every run no call is accepted twice and none disappears. */
  lemma {:induction false} EveryCallIsCountedOnce(cfg: Config, acts: seq<Action>, s: State)
    requires RunFrom(cfg, INIT, acts) == Some(s)
    ensures CallsCounted(s)
  {
    if acts != [] {
      var t, act := RunFrom(cfg, INIT, acts[..|acts| - 1]).value, acts[|acts| - 1];
      EveryCallIsCountedOnce(cfg, acts[..|acts| - 1], t);
      if ByProducer(act) {
        ProducerCounts(cfg, t, act);
      } else {
        ProducerFrame(cfg, t, act);
        OtherCounts(cfg, t, act);
      }
    }
  }

  // ------------------------------------------------------------------- shutdown

  /** All the workers' entries can be finished, storing none. */
  lemma FinishHands(cfg: Config, before: seq<Action>, s0: State) returns (acts: seq<Action>, s: State)
    requires RunFrom(cfg, INIT, before) == Some(s0) && s0.shutdown.Waiting?
    ensures RunFrom(cfg, INIT, acts) == Some(s) && s.hands == multiset{} && s.q.queue == s0.q.queue
    ensures s.shutdown.Waiting? && s.exited == s0.exited
  {
    acts, s := before, s0;
    while s.hands != multiset{}
      invariant RunFrom(cfg, INIT, acts) == Some(s) && s.q.queue == s0.q.queue && s.shutdown.Waiting? && s.exited == s0.exited
      decreases |s.hands|
    {
      var e :| e in s.hands;
      var act := Finish(e, false, true);
      Extend(cfg, acts, s, act);
      EntryFlags(cfg, s, act);
      FinishMoves(cfg, s, e, false, true);
      acts, s := acts + [act], Apply(cfg, s, act);
    }
  }

  /** The queue can be drained, as long as a worker is left. */
  lemma DrainQueue(cfg: Config, before: seq<Action>, s0: State) returns (acts: seq<Action>, s: State)
    requires RunFrom(cfg, INIT, before) == Some(s0) && s0.shutdown.Waiting? && s0.hands == multiset{} && s0.exited < cfg.workers
    ensures RunFrom(cfg, INIT, acts) == Some(s) && s.hands == multiset{} && s.q.queue == [] && s.shutdown.Waiting? && s.exited == s0.exited
  {
    acts, s := before, s0;
    while s.q.queue != []
      invariant RunFrom(cfg, INIT, acts) == Some(s) && s.hands == multiset{} && s.shutdown.Waiting? && s.exited == s0.exited
      decreases |s.q.queue|
    {
      Extend(cfg, acts, s, Take);
      EntryFlags(cfg, s, Take);
      ghost var n := |s.q.queue|;
      acts, s := acts + [Take], Apply(cfg, s, Take);
      assert |s.q.queue| == n - 1;
      acts, s := FinishHands(cfg, acts, s);
    }
  }

  lemma ExitWorkers(cfg: Config, before: seq<Action>, s0: State) returns (acts: seq<Action>, s: State)
    requires RunFrom(cfg, INIT, before) == Some(s0) && s0.shutdown.Waiting? && s0.hands == multiset{} && s0.exited <= cfg.workers
    requires s0.exited < cfg.workers ==> s0.q.queue == []
    ensures RunFrom(cfg, INIT, acts) == Some(s) && s.exited == cfg.workers && s.shutdown.Waiting?
  {
    acts, s := before, s0;
    while s.exited < cfg.workers
      invariant RunFrom(cfg, INIT, acts) == Some(s) && s.hands == multiset{} && s.shutdown.Waiting? && s.exited <= cfg.workers
      invariant s.exited < cfg.workers ==> s.q.queue == []
      decreases cfg.workers - s.exited
    {
      RunKeepsInv(cfg, acts);
      Extend(cfg, acts, s, WorkerExit);
      acts, s := acts + [WorkerExit], Apply(cfg, s, WorkerExit);
    }
  }

  lemma ExitBatcher(cfg: Config, before: seq<Action>, s0: State) returns (acts: seq<Action>, s: State)
    requires RunFrom(cfg, INIT, before) == Some(s0) && s0.shutdown.Waiting? && s0.exited == cfg.workers
    ensures RunFrom(cfg, INIT, acts) == Some(s) && s.exited == cfg.workers && s.shutdown.Waiting? && s.batcherExited
  {
    acts, s := before, s0;
    while !s.batcherExited
      invariant RunFrom(cfg, INIT, acts) == Some(s) && s.exited == cfg.workers && s.shutdown.Waiting?
      decreases |s.q.metrics|, if s.batcherExited then 0 else 1
    {
      RunKeepsInv(cfg, acts);
      var act := if s.q.metrics == [] then BatcherExit else BatcherReceive;
      Extend(cfg, acts, s, act);
      MetricFlags(cfg, s, act);
      acts, s := acts + [act], Apply(cfg, s, act);
    }
  }

  /** From every state in which Shutdown waits, some continuation makes it complete: it never waits in vain. */
  lemma ShutdownCanComplete(cfg: Config, before: seq<Action>, s0: State) returns (acts: seq<Action>, s: State)
    requires RunFrom(cfg, INIT, before) == Some(s0) && s0.shutdown.Waiting?
    ensures RunFrom(cfg, INIT, acts) == Some(s) && s.shutdown.Complete?
  {
    acts, s := FinishHands(cfg, before, s0);
    RunKeepsInv(cfg, acts);
    if s.exited < cfg.workers {
      acts, s := DrainQueue(cfg, acts, s);
    }
    RunKeepsInv(cfg, acts);
    acts, s := ExitWorkers(cfg, acts, s);
    acts, s := ExitBatcher(cfg, acts, s);
    Extend(cfg, acts, s, FinishShutdown);
    acts, s := acts + [FinishShutdown], Apply(cfg, s, FinishShutdown);
  }
}
