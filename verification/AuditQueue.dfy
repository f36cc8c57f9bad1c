/**
 The asynchronous audit queue: two channels, the workers, the metrics batcher, the
 counters, the fallback file and Shutdown, under every interleaving.
 */
module AuditQueue {
  import opened Wrappers

  /** details carries the fields that no step looks at. */
  datatype AuditEntry =
    AuditEntry(kind: string, orgId: string, policyId: Option<string>, blocked: bool, details: string, retries: nat)

  const METRICS_CAPACITY: nat := 1000
  const BATCH_SIZE: nat := 100
  const MAX_ATTEMPTS: nat := 3

  datatype Config = Config(capacity: nat, hasDb: bool, workers: nat)

  /** The shared object. batch is the batcher's open batch; flushed and stored record what left it. */
  datatype Queue = Queue(
    queue: seq<AuditEntry>,
    metrics: seq<AuditEntry>,
    batch: seq<AuditEntry>,
    closed: bool,
    queueClosed: bool,
    metricsClosed: bool,
    queued: nat,
    processed: nat,
    failed: nat,
    fallback: seq<AuditEntry>,
    lost: multiset<AuditEntry>,         // entries whose fallback write failed
    stored: seq<AuditEntry>,
    given: seq<AuditEntry>,             // entries handed to the fallback write after all attempts failed
    flushed: seq<seq<AuditEntry>>)

  const EMPTY: Queue := Queue([], [], [], false, false, false, 0, 0, 0, [], multiset{}, [], [], [])

  // ------------------------------------------- the steps of the shared object

  function PushEntry(q: Queue, e: AuditEntry): Queue {
    q.(queue := q.queue + [e])
  }

  function PushMetric(q: Queue, e: AuditEntry): Queue {
    q.(metrics := q.metrics + [e])
  }

  function CountQueued(q: Queue): Queue {
    q.(queued := q.queued + 1)
  }

  function AppendFallback(q: Queue, e: AuditEntry, ok: bool): Queue {
    if ok then q.(fallback := q.fallback + [e]) else q.(lost := q.lost + multiset{e})
  }

  /** The entry as it reads after all attempts: each failed attempt adds one to its retry count. */
  function Retried(e: AuditEntry): AuditEntry {
    e.(retries := e.retries + MAX_ATTEMPTS)
  }

  /** A worker is done with e: stored, or given up on and written to the fallback file if that works. */
  function FinishEntry(q: Queue, e: AuditEntry, ok: bool, fallbackOk: bool): Queue {
    if ok then q.(processed := q.processed + 1, stored := q.stored + [e])
    else AppendFallback(q.(failed := q.failed + 1, given := q.given + [e]), Retried(e), fallbackOk)
  }

  /** flushMetricsBatch followed by batch[:0]; without a database nothing is counted. */
  function Flush(cfg: Config, q: Queue): Queue {
    q.(processed := q.processed + (if cfg.hasDb then |q.batch| else 0), flushed := q.flushed + [q.batch], batch := [])
  }

  function ReceiveMetric(cfg: Config, q: Queue): Queue
    requires q.metrics != []
  {
    var q' := q.(batch := q.batch + [q.metrics[0]], metrics := q.metrics[1..]);
    if |q'.batch| >= BATCH_SIZE then Flush(cfg, q') else q'
  }

  function FlushOpenBatch(cfg: Config, q: Queue): Queue {
    if q.batch != [] then Flush(cfg, q) else q
  }

  // --------------------------------------------------------------- the machine

  datatype Producer =
    | Checking(e: AuditEntry)          // in queueEntry, before the closed check
    | Sending(e: AuditEntry)           // past the closed check
    | Spilling(e: AuditEntry)          // must write the fallback file itself
    | SendingMetric(e: AuditEntry)     // in LogMetric, which has no closed check

  datatype Shutdown = Running | FlagSet | QueueClosed | Waiting | Complete | TimedOut

  /**
   The entries the workers took, the entries they finished with, and the entries producers
   wrote to the fallback file themselves; the number of calls begun and of metrics dropped.
   */
  datatype History = History(taken: seq<AuditEntry>, finished: seq<AuditEntry>, spilled: seq<AuditEntry>, begun: nat, dropped: nat)

  /**
   hands holds the entries the workers are busy with and exited counts the workers
   that have returned; uncounted is the number of sends whose increment of queued is
   still to come.
   */
  datatype State = State(
    q: Queue,
    producers: map<nat, Producer>,
    hands: multiset<AuditEntry>,
    exited: nat,
    batcherExited: bool,
    uncounted: nat,
    accepted: seq<AuditEntry>,
    acceptedMetrics: seq<AuditEntry>,
    shutdown: Shutdown,
    panicked: bool,
    past: History)

  const INIT: State := State(EMPTY, map[], multiset{}, 0, false, 0, [], [], Running, false, History([], [], [], 0, 0))

  datatype Action =
    | BeginEntry(p: nat, e: AuditEntry)
    | BeginMetric(p: nat, e: AuditEntry)
    | CheckClosed(p: nat)
    | TrySend(p: nat)
    | TrySendMetric(p: nat)
    | Spill(p: nat, ok: bool)
    | Count
    | Take
    | Finish(e: AuditEntry, ok: bool, fallbackOk: bool)
    | WorkerExit
    | BatcherReceive
    | BatcherTick
    | BatcherExit
    | SetClosed
    | CloseQueue
    | CloseMetrics
    | FinishShutdown
    | TimeOut

  predicate Enabled(cfg: Config, s: State, act: Action) {
    match act
    case BeginEntry(p, _) => p !in s.producers
    case BeginMetric(p, _) => p !in s.producers
    case CheckClosed(p) => p in s.producers && s.producers[p].Checking?
    case TrySend(p) => p in s.producers && s.producers[p].Sending?
    case TrySendMetric(p) => p in s.producers && s.producers[p].SendingMetric?
    case Spill(p, _) => p in s.producers && s.producers[p].Spilling?
    case Count => s.uncounted > 0
    case Take => |s.hands| + s.exited < cfg.workers && s.q.queue != []
    case Finish(e, ok, _) => e in s.hands && (ok ==> cfg.hasDb)
    case WorkerExit => |s.hands| + s.exited < cfg.workers && s.q.queue == [] && s.q.queueClosed
    case BatcherReceive => !s.batcherExited && s.q.metrics != []
    case BatcherTick => !s.batcherExited
    case BatcherExit => !s.batcherExited && s.q.metrics == [] && s.q.metricsClosed
    case SetClosed => s.shutdown.Running?
    case CloseQueue => s.shutdown.FlagSet?
    case CloseMetrics => s.shutdown.QueueClosed?
    case FinishShutdown => s.shutdown.Waiting? && s.exited == cfg.workers && s.batcherExited
    case TimeOut => s.shutdown.Waiting?
  }

  function Apply(cfg: Config, s: State, act: Action): State
    requires Enabled(cfg, s, act)
  {
    match act
    case BeginEntry(p, e) => s.(producers := s.producers[p := Checking(e)], past := s.past.(begun := s.past.begun + 1))
    case BeginMetric(p, e) => s.(producers := s.producers[p := SendingMetric(e)], past := s.past.(begun := s.past.begun + 1))
    case CheckClosed(p) =>
      var e := s.producers[p].e;
      s.(producers := s.producers[p := if s.q.closed then Spilling(e) else Sending(e)])
    case TrySend(p) =>
      var e := s.producers[p].e;
      if s.q.queueClosed then s.(panicked := true)
      else if |s.q.queue| < cfg.capacity then
        s.(q := PushEntry(s.q, e), producers := s.producers - {p}, uncounted := s.uncounted + 1, accepted := s.accepted + [e])
      else s.(producers := s.producers[p := Spilling(e)])
    case TrySendMetric(p) =>
      var e := s.producers[p].e;
      if s.q.metricsClosed then s.(panicked := true)
      else if |s.q.metrics| < METRICS_CAPACITY then
        s.(q := PushMetric(s.q, e), producers := s.producers - {p}, uncounted := s.uncounted + 1,
           acceptedMetrics := s.acceptedMetrics + [e])
      else s.(producers := s.producers - {p}, past := s.past.(dropped := s.past.dropped + 1))
    case Spill(p, ok) =>
      s.(q := AppendFallback(s.q, s.producers[p].e, ok), producers := s.producers - {p},
         past := s.past.(spilled := s.past.spilled + [s.producers[p].e]))
    case Count => s.(q := CountQueued(s.q), uncounted := s.uncounted - 1)
    case Take =>
      s.(hands := s.hands + multiset{s.q.queue[0]}, q := s.q.(queue := s.q.queue[1..]),
         past := s.past.(taken := s.past.taken + [s.q.queue[0]]))
    case Finish(e, ok, fallbackOk) =>
      s.(q := FinishEntry(s.q, e, ok, fallbackOk), hands := s.hands - multiset{e},
         past := s.past.(finished := s.past.finished + [e]))
    case WorkerExit => s.(exited := s.exited + 1)
    case BatcherReceive => s.(q := ReceiveMetric(cfg, s.q))
    case BatcherTick => s.(q := FlushOpenBatch(cfg, s.q))
    case BatcherExit => s.(q := FlushOpenBatch(cfg, s.q), batcherExited := true)
    case SetClosed => s.(q := s.q.(closed := true), shutdown := FlagSet)
    case CloseQueue => s.(q := s.q.(queueClosed := true), shutdown := QueueClosed)
    case CloseMetrics => s.(q := s.q.(metricsClosed := true), shutdown := Waiting)
    case FinishShutdown => s.(shutdown := Complete)
    case TimeOut => s.(shutdown := TimedOut)
  }

  function RunFrom(cfg: Config, s: State, acts: seq<Action>): Option<State> {
    if acts == [] then Some(s)
    else
      match RunFrom(cfg, s, acts[..|acts| - 1])
      case None => None
      case Some(t) =>
        if Enabled(cfg, t, acts[|acts| - 1]) then Some(Apply(cfg, t, acts[|acts| - 1])) else None
  }

  // -------------------------------------------------------------- conservation

  function Flat(batches: seq<seq<AuditEntry>>): seq<AuditEntry> {
    if batches == [] then [] else Flat(batches[..|batches| - 1]) + batches[|batches| - 1]
  }

  lemma FlatAppend(batches: seq<seq<AuditEntry>>, b: seq<AuditEntry>)
    ensures Flat(batches + [b]) == Flat(batches) + b
  {
    assert (batches + [b])[..|batches|] == batches;
  }

  /** Every accepted entry is stored, given up on, waiting or in a worker's hand. */
  predicate EntriesConserved(s: State) {
    Balanced(s.accepted, s.q.stored, s.q.given, s.q.queue, s.hands)
  }

  /** Metrics keep their order from channel to batch: nothing is lost, doubled or moved before the flush. */
  predicate MetricsConserved(s: State) {
    Ordered(s.acceptedMetrics, s.q.flushed, s.q.batch, s.q.metrics)
  }

  predicate Ordered(accepted: seq<AuditEntry>, flushed: seq<seq<AuditEntry>>, batch: seq<AuditEntry>, metrics: seq<AuditEntry>) {
    && accepted == Flat(flushed) + batch + metrics
    && |batch| < BATCH_SIZE
    && (forall i | 0 <= i < |flushed| :: 0 < |flushed[i]| <= BATCH_SIZE)
  }

  function RetriedAll(es: seq<AuditEntry>): seq<AuditEntry> {
    if es == [] then [] else RetriedAll(es[..|es| - 1]) + [Retried(es[|es| - 1])]
  }

  /** Every entry a worker gave up on is in the fallback file, unless that write failed. */
  predicate FallbackHolds(given: seq<AuditEntry>, fallback: seq<AuditEntry>, lost: multiset<AuditEntry>) {
    multiset(RetriedAll(given)) <= multiset(fallback) + lost
  }

  lemma FallbackGrows(given: seq<AuditEntry>, fallback: seq<AuditEntry>, lost: multiset<AuditEntry>, e: AuditEntry)
    requires FallbackHolds(given, fallback, lost)
    ensures FallbackHolds(given, fallback + [e], lost) && FallbackHolds(given, fallback, lost + multiset{e})
    ensures FallbackHolds(given + [e], fallback + [Retried(e)], lost)
    ensures FallbackHolds(given + [e], fallback, lost + multiset{Retried(e)})
  {
    assert (given + [e])[..|given|] == given;
  }

  predicate CountersOk(cfg: Config, s: State) {
    && s.q.queued + s.uncounted == |s.accepted| + |s.acceptedMetrics|
    && s.q.failed == |s.q.given|
    && s.q.processed == |s.q.stored| + (if cfg.hasDb then |Flat(s.q.flushed)| else 0)
    && (!cfg.hasDb ==> s.q.stored == [])
  }

  predicate ShutdownOk(cfg: Config, s: State) {
    && (s.q.closed <==> !s.shutdown.Running?)
    && (s.q.queueClosed <==> s.q.closed && !s.shutdown.FlagSet?)
    && (s.q.metricsClosed <==> s.q.queueClosed && !s.shutdown.QueueClosed?)
    && |s.hands| + s.exited <= cfg.workers
    && (s.exited > 0 ==> s.q.queueClosed && s.q.queue == [])
    && (s.batcherExited ==> s.q.metricsClosed && s.q.metrics == [] && s.q.batch == [])
    && (s.shutdown.Complete? ==> s.exited == cfg.workers && s.batcherExited)
  }

  predicate Inv(cfg: Config, s: State) {
    && EntriesConserved(s) && MetricsConserved(s) && CountersOk(cfg, s) && ShutdownOk(cfg, s)
    && FallbackHolds(s.q.given, s.q.fallback, s.q.lost)
  }

  /** The actions that move entries of the main channel, and those that move metrics. */
  predicate MovesEntry(act: Action) {
    act.TrySend? || act.Take? || act.Finish?
  }

  predicate MovesMetric(act: Action) {
    act.TrySendMetric? || act.BatcherReceive? || act.BatcherTick? || act.BatcherExit?
  }

  lemma EntryFrame(cfg: Config, s: State, act: Action)
    requires Enabled(cfg, s, act) && !MovesEntry(act)
    ensures var s' := Apply(cfg, s, act);
            && s'.accepted == s.accepted && s'.q.stored == s.q.stored && s'.q.given == s.q.given
            && s'.q.queue == s.q.queue && s'.hands == s.hands && s'.q.failed == s.q.failed
  {}

  predicate SameMetrics(s: State, s': State) {
    && s'.acceptedMetrics == s.acceptedMetrics && s'.q.flushed == s.q.flushed
    && s'.q.batch == s.q.batch && s'.q.metrics == s.q.metrics
  }

  lemma EntryMetricFrame(cfg: Config, s: State, act: Action)
    requires Enabled(cfg, s, act) && MovesEntry(act)
    ensures SameMetrics(s, Apply(cfg, s, act))
  {}

  lemma MetricFrame(cfg: Config, s: State, act: Action)
    requires Enabled(cfg, s, act) && !MovesMetric(act)
    ensures SameMetrics(s, Apply(cfg, s, act))
  {
    if MovesEntry(act) {
      EntryMetricFrame(cfg, s, act);
    }
  }

  predicate Balanced(accepted: seq<AuditEntry>, stored: seq<AuditEntry>, given: seq<AuditEntry>,
                     queue: seq<AuditEntry>, hands: multiset<AuditEntry>) {
    multiset(accepted) == multiset(stored) + multiset(given) + multiset(queue) + hands
  }

  lemma BalancedTake(accepted: seq<AuditEntry>, stored: seq<AuditEntry>, given: seq<AuditEntry>,
                     queue: seq<AuditEntry>, hands: multiset<AuditEntry>)
    requires Balanced(accepted, stored, given, queue, hands) && queue != []
    ensures Balanced(accepted, stored, given, queue[1..], hands + multiset{queue[0]})
  {
    assert queue == [queue[0]] + queue[1..];
  }

  lemma BalancedMoves(accepted: seq<AuditEntry>, stored: seq<AuditEntry>, given: seq<AuditEntry>,
                      queue: seq<AuditEntry>, hands: multiset<AuditEntry>, e: AuditEntry)
    requires Balanced(accepted, stored, given, queue, hands)
    ensures Balanced(accepted + [e], stored, given, queue + [e], hands)
    ensures e in hands ==> Balanced(accepted, stored + [e], given, queue, hands - multiset{e})
    ensures e in hands ==> Balanced(accepted, stored, given + [e], queue, hands - multiset{e})
  {}

  lemma SendMoves(cfg: Config, s: State, p: nat)
    requires Enabled(cfg, s, TrySend(p))
    ensures var s' := Apply(cfg, s, TrySend(p)); var e := s.producers[p].e;
            && s'.q.stored == s.q.stored && s'.q.given == s.q.given && s'.hands == s.hands
            && ((s'.accepted == s.accepted && s'.q.queue == s.q.queue) || (s'.accepted == s.accepted + [e] && s'.q.queue == s.q.queue + [e]))
  {}

  lemma FinishMoves(cfg: Config, s: State, e: AuditEntry, ok: bool, fallbackOk: bool)
    requires Enabled(cfg, s, Finish(e, ok, fallbackOk))
    ensures var s' := Apply(cfg, s, Finish(e, ok, fallbackOk));
            && s'.accepted == s.accepted && s'.q.queue == s.q.queue && s'.hands == s.hands - multiset{e}
            && s'.q.stored == (if ok then s.q.stored + [e] else s.q.stored)
            && s'.q.given == (if ok then s.q.given else s.q.given + [e])
  {}

  lemma EntriesStep(cfg: Config, s: State, act: Action)
    requires EntriesConserved(s) && Enabled(cfg, s, act)
    ensures EntriesConserved(Apply(cfg, s, act))
  {
    if act.TrySend? {
      SendMoves(cfg, s, act.p);
      BalancedMoves(s.accepted, s.q.stored, s.q.given, s.q.queue, s.hands, s.producers[act.p].e);
    } else if act.Take? {
      BalancedTake(s.accepted, s.q.stored, s.q.given, s.q.queue, s.hands);
    } else if act.Finish? {
      FinishMoves(cfg, s, act.e, act.ok, act.fallbackOk);
      BalancedMoves(s.accepted, s.q.stored, s.q.given, s.q.queue, s.hands, act.e);
    } else {
      EntryFrame(cfg, s, act);
    }
  }

  predicate SameFallback(s: State, s': State) {
    s'.q.given == s.q.given && s'.q.fallback == s.q.fallback && s'.q.lost == s.q.lost
  }

  lemma MetricFallbackFrame(cfg: Config, s: State, act: Action)
    requires Enabled(cfg, s, act) && MovesMetric(act)
    ensures SameFallback(s, Apply(cfg, s, act))
  {}

  lemma FallbackFrame(cfg: Config, s: State, act: Action)
    requires Enabled(cfg, s, act) && !MovesMetric(act) && !act.Spill? && !act.Finish?
    ensures SameFallback(s, Apply(cfg, s, act))
  {}

  lemma SpillStep(cfg: Config, s: State, p: nat, ok: bool)
    requires FallbackHolds(s.q.given, s.q.fallback, s.q.lost) && Enabled(cfg, s, Spill(p, ok))
    ensures var s' := Apply(cfg, s, Spill(p, ok)); FallbackHolds(s'.q.given, s'.q.fallback, s'.q.lost)
  {
    FallbackGrows(s.q.given, s.q.fallback, s.q.lost, s.producers[p].e);
  }

  lemma FinishFallbackStep(cfg: Config, s: State, e: AuditEntry, ok: bool, fallbackOk: bool)
    requires FallbackHolds(s.q.given, s.q.fallback, s.q.lost) && Enabled(cfg, s, Finish(e, ok, fallbackOk))
    ensures var s' := Apply(cfg, s, Finish(e, ok, fallbackOk)); FallbackHolds(s'.q.given, s'.q.fallback, s'.q.lost)
  {
    FallbackGrows(s.q.given, s.q.fallback, s.q.lost, e);
  }

  lemma FallbackStep(cfg: Config, s: State, act: Action)
    requires FallbackHolds(s.q.given, s.q.fallback, s.q.lost) && Enabled(cfg, s, act)
    ensures var s' := Apply(cfg, s, act); FallbackHolds(s'.q.given, s'.q.fallback, s'.q.lost)
  {
    if act.Spill? {
      SpillStep(cfg, s, act.p, act.ok);
    } else if act.Finish? {
      FinishFallbackStep(cfg, s, act.e, act.ok, act.fallbackOk);
    } else if MovesMetric(act) {
      MetricFallbackFrame(cfg, s, act);
    } else {
      FallbackFrame(cfg, s, act);
    }
  }

  lemma OrderedFlush(accepted: seq<AuditEntry>, flushed: seq<seq<AuditEntry>>, batch: seq<AuditEntry>, metrics: seq<AuditEntry>)
    requires accepted == Flat(flushed) + batch + metrics && 0 < |batch| <= BATCH_SIZE
    requires forall i | 0 <= i < |flushed| :: 0 < |flushed[i]| <= BATCH_SIZE
    ensures Ordered(accepted, flushed + [batch], [], metrics)
  {
    FlatAppend(flushed, batch);
  }

  lemma OrderedReceive(cfg: Config, accepted: seq<AuditEntry>, q: Queue)
    requires Ordered(accepted, q.flushed, q.batch, q.metrics) && q.metrics != []
    ensures var q' := ReceiveMetric(cfg, q); Ordered(accepted, q'.flushed, q'.batch, q'.metrics)
  {
    var batch, metrics := q.batch + [q.metrics[0]], q.metrics[1..];
    assert accepted == Flat(q.flushed) + batch + metrics;
    if |batch| >= BATCH_SIZE {
      OrderedFlush(accepted, q.flushed, batch, metrics);
    }
  }

  lemma OrderedSend(accepted: seq<AuditEntry>, flushed: seq<seq<AuditEntry>>, batch: seq<AuditEntry>, metrics: seq<AuditEntry>, e: AuditEntry)
    requires Ordered(accepted, flushed, batch, metrics)
    ensures Ordered(accepted + [e], flushed, batch, metrics + [e])
  {}

  lemma SendMetricStep(cfg: Config, s: State, p: nat)
    requires MetricsConserved(s) && Enabled(cfg, s, TrySendMetric(p))
    ensures MetricsConserved(Apply(cfg, s, TrySendMetric(p)))
  {
    OrderedSend(s.acceptedMetrics, s.q.flushed, s.q.batch, s.q.metrics, s.producers[p].e);
  }

  lemma OrderedFlushOpen(cfg: Config, accepted: seq<AuditEntry>, q: Queue)
    requires Ordered(accepted, q.flushed, q.batch, q.metrics)
    ensures var r := FlushOpenBatch(cfg, q);
            Ordered(accepted, r.flushed, r.batch, r.metrics) && r.batch == [] && r.metrics == q.metrics
  {
    if q.batch != [] {
      OrderedFlush(accepted, q.flushed, q.batch, q.metrics);
    }
  }

  lemma BatcherMetricsStep(cfg: Config, s: State, act: Action)
    requires MetricsConserved(s) && Enabled(cfg, s, act) && (act.BatcherReceive? || act.BatcherTick? || act.BatcherExit?)
    ensures MetricsConserved(Apply(cfg, s, act))
  {
    if act.BatcherReceive? {
      OrderedReceive(cfg, s.acceptedMetrics, s.q);
    } else {
      OrderedFlushOpen(cfg, s.acceptedMetrics, s.q);
    }
  }

  lemma MetricsStep(cfg: Config, s: State, act: Action)
    requires MetricsConserved(s) && Enabled(cfg, s, act)
    ensures MetricsConserved(Apply(cfg, s, act))
  {
    if act.TrySendMetric? {
      SendMetricStep(cfg, s, act.p);
    } else if MovesMetric(act) {
      BatcherMetricsStep(cfg, s, act);
    } else {
      MetricFrame(cfg, s, act);
    }
  }

  predicate SameCounts(s: State, s': State) {
    s'.q.processed == s.q.processed && s'.q.queued + s'.uncounted == s.q.queued + s.uncounted
  }

  lemma SpillCounts(cfg: Config, s: State, p: nat, ok: bool)
    requires Enabled(cfg, s, Spill(p, ok))
    ensures SameCounts(s, Apply(cfg, s, Spill(p, ok)))
  {}

  lemma CounterFrame(cfg: Config, s: State, act: Action)
    requires Enabled(cfg, s, act) && !MovesEntry(act) && !MovesMetric(act)
    ensures SameCounts(s, Apply(cfg, s, act))
  {
    if act.Spill? {
      SpillCounts(cfg, s, act.p, act.ok);
    }
  }

  lemma FlushCounts(cfg: Config, q: Queue)
    ensures var r := FlushOpenBatch(cfg, q);
            && r.queued == q.queued && r.failed == q.failed && r.stored == q.stored && r.given == q.given
            && r.processed - q.processed == if cfg.hasDb then |Flat(r.flushed)| - |Flat(q.flushed)| else 0
  {
    FlatAppend(q.flushed, q.batch);
  }

  lemma ReceiveCounts(cfg: Config, q: Queue)
    requires q.metrics != []
    ensures var r := ReceiveMetric(cfg, q);
            && r.queued == q.queued && r.failed == q.failed && r.stored == q.stored && r.given == q.given
            && r.processed - q.processed == if cfg.hasDb then |Flat(r.flushed)| - |Flat(q.flushed)| else 0
  {
    FlatAppend(q.flushed, q.batch + [q.metrics[0]]);
  }

  lemma BatcherCounts(cfg: Config, s: State, act: Action)
    requires CountersOk(cfg, s) && Enabled(cfg, s, act) && (act.BatcherReceive? || act.BatcherTick? || act.BatcherExit?)
    ensures CountersOk(cfg, Apply(cfg, s, act))
  {
    if act.BatcherReceive? {
      ReceiveCounts(cfg, s.q);
    } else {
      FlushCounts(cfg, s.q);
    }
  }

  lemma SendCounts(cfg: Config, s: State, p: nat)
    requires CountersOk(cfg, s) && Enabled(cfg, s, TrySend(p))
    ensures CountersOk(cfg, Apply(cfg, s, TrySend(p)))
  {}

  lemma SendMetricCounts(cfg: Config, s: State, p: nat)
    requires CountersOk(cfg, s) && Enabled(cfg, s, TrySendMetric(p))
    ensures CountersOk(cfg, Apply(cfg, s, TrySendMetric(p)))
  {}

  lemma FinishCounts(cfg: Config, s: State, e: AuditEntry, ok: bool, fallbackOk: bool)
    requires CountersOk(cfg, s) && Enabled(cfg, s, Finish(e, ok, fallbackOk))
    ensures CountersOk(cfg, Apply(cfg, s, Finish(e, ok, fallbackOk)))
  {}

  /** queued lags the accepted entries by the increments still to come; processed and failed match what left. */
  lemma CountersStep(cfg: Config, s: State, act: Action)
    requires CountersOk(cfg, s) && Enabled(cfg, s, act)
    ensures CountersOk(cfg, Apply(cfg, s, act))
  {
    if !MovesEntry(act) && !MovesMetric(act) {
      CounterFrame(cfg, s, act);
      EntryFrame(cfg, s, act);
      MetricFrame(cfg, s, act);
    } else if act.BatcherReceive? || act.BatcherTick? || act.BatcherExit? {
      BatcherCounts(cfg, s, act);
    } else if act.TrySend? {
      SendCounts(cfg, s, act.p);
    } else if act.TrySendMetric? {
      SendMetricCounts(cfg, s, act.p);
    } else if act.Finish? {
      FinishCounts(cfg, s, act.e, act.ok, act.fallbackOk);
    }
  }

  predicate SameFlags(s: State, s': State) {
    && s'.q.closed == s.q.closed && s'.q.queueClosed == s.q.queueClosed && s'.q.metricsClosed == s.q.metricsClosed
    && s'.shutdown == s.shutdown && s'.exited == s.exited
  }

  lemma EntryFlags(cfg: Config, s: State, act: Action)
    requires Enabled(cfg, s, act) && MovesEntry(act)
    ensures SameFlags(s, Apply(cfg, s, act))
  {}

  lemma MetricFlags(cfg: Config, s: State, act: Action)
    requires Enabled(cfg, s, act) && MovesMetric(act)
    ensures SameFlags(s, Apply(cfg, s, act))
  {}

  lemma EntryShutdownStep(cfg: Config, s: State, act: Action)
    requires ShutdownOk(cfg, s) && Enabled(cfg, s, act) && MovesEntry(act)
    ensures ShutdownOk(cfg, Apply(cfg, s, act))
  {
    EntryFlags(cfg, s, act);
    MetricFrame(cfg, s, act);
  }

  lemma MetricShutdownStep(cfg: Config, s: State, act: Action)
    requires ShutdownOk(cfg, s) && Enabled(cfg, s, act) && MovesMetric(act)
    ensures ShutdownOk(cfg, Apply(cfg, s, act))
  {
    MetricFlags(cfg, s, act);
    EntryFrame(cfg, s, act);
  }

  lemma ControlStep(cfg: Config, s: State, act: Action)
    requires ShutdownOk(cfg, s) && Enabled(cfg, s, act) && !MovesEntry(act) && !MovesMetric(act)
    ensures ShutdownOk(cfg, Apply(cfg, s, act))
  {
    EntryFrame(cfg, s, act);
    MetricFrame(cfg, s, act);
  }

  lemma ShutdownStep(cfg: Config, s: State, act: Action)
    requires ShutdownOk(cfg, s) && Enabled(cfg, s, act)
    ensures ShutdownOk(cfg, Apply(cfg, s, act))
  {
    if !MovesEntry(act) && !MovesMetric(act) {
      ControlStep(cfg, s, act);
    } else if MovesEntry(act) {
      EntryShutdownStep(cfg, s, act);
    } else {
      MetricShutdownStep(cfg, s, act);
    }
  }

  lemma {:induction false} RunKeepsInv(cfg: Config, acts: seq<Action>)
    ensures RunFrom(cfg, INIT, acts).Some? ==> Inv(cfg, RunFrom(cfg, INIT, acts).value)
  {
    if acts != [] {
      var acts', act := acts[..|acts| - 1], acts[|acts| - 1];
      RunKeepsInv(cfg, acts');
      if RunFrom(cfg, INIT, acts').Some? && Enabled(cfg, RunFrom(cfg, INIT, acts').value, act) {
        var s := RunFrom(cfg, INIT, acts').value;
        EntriesStep(cfg, s, act);
        MetricsStep(cfg, s, act);
        CountersStep(cfg, s, act);
        ShutdownStep(cfg, s, act);
        FallbackStep(cfg, s, act);
      }
    }
  }

  /**
   Conservation in every run: queued, plus increments still to come, equals processed
   plus failed plus both backlogs, the open batch and the entries in hand. Without a
   database the flushed metrics are the difference, so the plain equation then holds
   exactly while no metric has been flushed.
   */
  lemma QueuedIsConserved(cfg: Config, acts: seq<Action>, s: State)
    requires RunFrom(cfg, INIT, acts) == Some(s)
    ensures var rest := s.q.processed + s.q.failed + |s.q.queue| + |s.q.metrics| + |s.q.batch| + |s.hands|;
            && s.q.queued + s.uncounted == rest + (if cfg.hasDb then 0 else |Flat(s.q.flushed)|)
            && (s.q.queued + s.uncounted == rest <==> cfg.hasDb || s.q.flushed == [])
    ensures EntriesConserved(s) && MetricsConserved(s)
  {
    RunKeepsInv(cfg, acts);
    assert |multiset(s.accepted)| == |s.q.stored| + |s.q.given| + |s.q.queue| + |s.hands|;
    if s.q.flushed != [] {
      assert |s.q.flushed[|s.q.flushed| - 1]| > 0;
    }
  }

  /** Without a database a single flushed metric breaks the plain equation. */
  lemma FlushWithoutDatabase(cfg: Config, e: AuditEntry) returns (acts: seq<Action>, s: State)
    requires !cfg.hasDb
    ensures RunFrom(cfg, INIT, acts) == Some(s) && s.q.flushed == [[e]]
    ensures s.q.queued + s.uncounted == 1
    ensures s.q.processed + s.q.failed + |s.q.queue| + |s.q.metrics| + |s.q.batch| + |s.hands| == 0
  {
    acts, s := [], INIT;
    Extend(cfg, acts, s, BeginMetric(0, e));
    acts, s := acts + [BeginMetric(0, e)], Apply(cfg, s, BeginMetric(0, e));
    Extend(cfg, acts, s, TrySendMetric(0));
    acts, s := acts + [TrySendMetric(0)], Apply(cfg, s, TrySendMetric(0));
    Extend(cfg, acts, s, BatcherReceive);
    acts, s := acts + [BatcherReceive], Apply(cfg, s, BatcherReceive);
    assert s.q.batch == [e];
    Extend(cfg, acts, s, BatcherTick);
    acts, s := acts + [BatcherTick], Apply(cfg, s, BatcherTick);
  }

  /**
   After a clean Shutdown nothing is left behind: every accepted entry is stored or was
   given up on, and every accepted metric is flushed. An entry can stay queued only when
   the queue was made without workers.
   */
  lemma CleanShutdownSettlesAll(cfg: Config, acts: seq<Action>, s: State)
    requires RunFrom(cfg, INIT, acts) == Some(s) && s.shutdown.Complete?
    ensures s.q.metrics == [] && s.q.batch == [] && s.hands == multiset{} && (cfg.workers > 0 ==> s.q.queue == [])
    ensures s.q.queued + s.uncounted == s.q.processed + s.q.failed + |s.q.queue| + (if cfg.hasDb then 0 else |s.acceptedMetrics|)
    ensures multiset(s.accepted) == multiset(s.q.stored) + multiset(s.q.given) + multiset(s.q.queue)
    ensures s.acceptedMetrics == Flat(s.q.flushed)
    ensures multiset(RetriedAll(s.q.given)) <= multiset(s.q.fallback) + s.q.lost
  {
    RunKeepsInv(cfg, acts);
    QueuedIsConserved(cfg, acts, s);
    assert |s.hands| == 0;
  }

  lemma Extend(cfg: Config, acts: seq<Action>, s: State, act: Action)
    requires RunFrom(cfg, INIT, acts) == Some(s) && Enabled(cfg, s, act)
    ensures RunFrom(cfg, INIT, acts + [act]) == Some(Apply(cfg, s, act))
  {
    assert (acts + [act])[..|acts|] == acts;
  }

  lemma AcceptOne(cfg: Config, e: AuditEntry) returns (acts: seq<Action>, s: State)
    requires cfg.capacity > 0
    ensures RunFrom(cfg, INIT, acts) == Some(s) && s.q.queue == [e] && s.q.metrics == [] && s.shutdown.Running?
    ensures !s.batcherExited && s.exited == 0
  {
    acts, s := [], INIT;
    Extend(cfg, acts, s, BeginEntry(0, e));
    acts, s := acts + [BeginEntry(0, e)], Apply(cfg, s, BeginEntry(0, e));
    Extend(cfg, acts, s, CheckClosed(0));
    acts, s := acts + [CheckClosed(0)], Apply(cfg, s, CheckClosed(0));
    Extend(cfg, acts, s, TrySend(0));
    acts, s := acts + [TrySend(0)], Apply(cfg, s, TrySend(0));
  }

  lemma CloseBoth(cfg: Config, before: seq<Action>, s0: State) returns (acts: seq<Action>, s: State)
    requires RunFrom(cfg, INIT, before) == Some(s0) && s0.shutdown.Running?
    ensures RunFrom(cfg, INIT, acts) == Some(s) && s.shutdown.Waiting? && s.q.metricsClosed
    ensures s.q.queue == s0.q.queue && s.q.metrics == s0.q.metrics && s.exited == s0.exited && s.batcherExited == s0.batcherExited
  {
    acts, s := before, s0;
    Extend(cfg, acts, s, SetClosed);
    acts, s := acts + [SetClosed], Apply(cfg, s, SetClosed);
    Extend(cfg, acts, s, CloseQueue);
    acts, s := acts + [CloseQueue], Apply(cfg, s, CloseQueue);
    Extend(cfg, acts, s, CloseMetrics);
    acts, s := acts + [CloseMetrics], Apply(cfg, s, CloseMetrics);
  }

  /** A queue made without workers reports a clean shutdown with an accepted entry still in it. */
  lemma NoWorkersStrandEntries(cfg: Config, e: AuditEntry) returns (acts: seq<Action>, s: State)
    requires cfg.workers == 0 && cfg.capacity > 0
    ensures RunFrom(cfg, INIT, acts) == Some(s) && s.shutdown.Complete? && s.q.queue == [e]
  {
    acts, s := AcceptOne(cfg, e);
    acts, s := CloseBoth(cfg, acts, s);
    Extend(cfg, acts, s, BatcherExit);
    acts, s := acts + [BatcherExit], Apply(cfg, s, BatcherExit);
    Extend(cfg, acts, s, FinishShutdown);
    acts, s := acts + [FinishShutdown], Apply(cfg, s, FinishShutdown);
  }

  // ------------------------------------------------------ sends after the close

  predicate IsMidSend(producer: Producer) {
    producer.Sending? || producer.SendingMetric?
  }

  predicate MidSend(s: State) {
    exists p :: p in s.producers && IsMidSend(s.producers[p])
  }

  predicate NoNewMetrics(acts: seq<Action>) {
    forall i | 0 <= i < |acts| :: !acts[i].BeginMetric?
  }

  predicate Quiet(producers: map<nat, Producer>) {
    forall p | p in producers :: !IsMidSend(producers[p])
  }

  predicate ByProducer(act: Action) {
    act.BeginEntry? || act.BeginMetric? || act.CheckClosed? || act.TrySend? || act.TrySendMetric? || act.Spill?
  }

  predicate SameProducers(s: State, s': State) {
    s'.producers == s.producers && s'.panicked == s.panicked
  }

  lemma BatcherProducerFrame(cfg: Config, s: State, act: Action)
    requires Enabled(cfg, s, act) && MovesMetric(act) && !ByProducer(act)
    ensures SameProducers(s, Apply(cfg, s, act))
  {}

  lemma WorkerProducerFrame(cfg: Config, s: State, act: Action)
    requires Enabled(cfg, s, act) && (act.Take? || act.Finish? || act.Count? || act.WorkerExit?)
    ensures SameProducers(s, Apply(cfg, s, act))
  {}

  lemma ProducerFrame(cfg: Config, s: State, act: Action)
    requires Enabled(cfg, s, act) && !ByProducer(act)
    ensures SameProducers(s, Apply(cfg, s, act))
  {
    if MovesMetric(act) {
      BatcherProducerFrame(cfg, s, act);
    } else if act.Take? || act.Finish? || act.Count? || act.WorkerExit? {
      WorkerProducerFrame(cfg, s, act);
    }
  }

  lemma ClosedStays(cfg: Config, s: State, act: Action)
    requires Enabled(cfg, s, act) && s.q.closed
    ensures Apply(cfg, s, act).q.closed
  {
    if MovesEntry(act) {
      EntryFlags(cfg, s, act);
    } else if MovesMetric(act) {
      MetricFlags(cfg, s, act);
    }
  }

  lemma QuietProducerStep(cfg: Config, s: State, act: Action)
    requires Enabled(cfg, s, act) && (act.BeginEntry? || act.CheckClosed? || act.Spill?)
    requires !s.panicked && s.q.closed && Quiet(s.producers)
    ensures var s' := Apply(cfg, s, act); !s'.panicked && s'.q.closed && Quiet(s'.producers)
  {}

  lemma {:induction false} QuietRun(cfg: Config, s: State, acts: seq<Action>)
    requires RunFrom(cfg, s, acts).Some? && NoNewMetrics(acts)
    requires !s.panicked && s.q.closed && Quiet(s.producers)
    ensures var t := RunFrom(cfg, s, acts).value; !t.panicked && t.q.closed && Quiet(t.producers)
  {
    if acts != [] {
      var acts', act := acts[..|acts| - 1], acts[|acts| - 1];
      QuietRun(cfg, s, acts');
      var t := RunFrom(cfg, s, acts').value;
      assert !act.BeginMetric? && !act.TrySend? && !act.TrySendMetric?;
      if ByProducer(act) {
        QuietProducerStep(cfg, t, act);
      } else {
        ProducerFrame(cfg, t, act);
        ClosedStays(cfg, t, act);
      }
    }
  }

  predicate PanicsWithin(cfg: Config, s: State, acts: seq<Action>) {
    RunFrom(cfg, s, acts).Some? && RunFrom(cfg, s, acts).value.panicked
  }

  lemma OneStep(cfg: Config, s: State, act: Action)
    requires Enabled(cfg, s, act)
    ensures RunFrom(cfg, s, [act]) == Some(Apply(cfg, s, act))
  {
    assert [act][..0] == [];
    assert RunFrom(cfg, s, []) == Some(s);
  }

  /** Shutdown can always go on to close both channels, and no producer moves meanwhile. */
  lemma CanCloseBoth(cfg: Config, s: State) returns (acts: seq<Action>, t: State)
    requires ShutdownOk(cfg, s) && s.q.closed
    ensures NoNewMetrics(acts) && RunFrom(cfg, s, acts) == Some(t)
    ensures t.q.queueClosed && t.q.metricsClosed && t.producers == s.producers
  {
    if s.shutdown.FlagSet? {
      TwoSteps(cfg, s, CloseQueue, CloseMetrics);
      acts := [CloseQueue, CloseMetrics];
      t := Apply(cfg, Apply(cfg, s, CloseQueue), CloseMetrics);
    } else if s.shutdown.QueueClosed? {
      OneStep(cfg, s, CloseMetrics);
      acts, t := [CloseMetrics], Apply(cfg, s, CloseMetrics);
    } else {
      acts, t := [], s;
    }
  }

  lemma MidSendCanPanic(cfg: Config, s: State) returns (acts: seq<Action>)
    requires ShutdownOk(cfg, s) && s.q.closed && MidSend(s)
    ensures NoNewMetrics(acts) && PanicsWithin(cfg, s, acts)
  {
    var before, t := CanCloseBoth(cfg, s);
    var p :| p in s.producers && IsMidSend(s.producers[p]);
    var act := if s.producers[p].Sending? then TrySend(p) else TrySendMetric(p);
    acts := before + [act];
    assert acts[..|before|] == before;
  }

  /**
   A send on a closed channel can still happen after Shutdown has set its flag, because
   the closed check and the send are separate steps. In any reachable state with the flag
   set, and leaving aside metric calls made from then on, it can happen exactly when some
   producer has passed its check, or is inside LogMetric, which has none.
   */
  lemma PanicReachableIffMidSend(cfg: Config, before: seq<Action>, s: State)
    requires RunFrom(cfg, INIT, before) == Some(s) && s.q.closed && !s.panicked
    ensures (exists acts :: NoNewMetrics(acts) && PanicsWithin(cfg, s, acts)) <==> MidSend(s)
  {
    RunKeepsInv(cfg, before);
    if MidSend(s) {
      var acts := MidSendCanPanic(cfg, s);
    }
    forall acts | !MidSend(s) && NoNewMetrics(acts) && PanicsWithin(cfg, s, acts)
      ensures false
    {
      QuietRun(cfg, s, acts);
    }
  }

  /** Every queue can reach such a state: a producer between its check and its send when the flag is set. */
  lemma MidSendIsReachable(cfg: Config, e: AuditEntry) returns (acts: seq<Action>, s: State)
    ensures RunFrom(cfg, INIT, acts) == Some(s) && s.q.closed && !s.panicked && MidSend(s)
  {
    acts, s := [], INIT;
    Extend(cfg, acts, s, BeginEntry(0, e));
    acts, s := acts + [BeginEntry(0, e)], Apply(cfg, s, BeginEntry(0, e));
    Extend(cfg, acts, s, CheckClosed(0));
    acts, s := acts + [CheckClosed(0)], Apply(cfg, s, CheckClosed(0));
    Extend(cfg, acts, s, SetClosed);
    acts, s := acts + [SetClosed], Apply(cfg, s, SetClosed);
    assert 0 in s.producers && IsMidSend(s.producers[0]);
  }

  lemma TwoSteps(cfg: Config, s: State, a: Action, b: Action)
    requires Enabled(cfg, s, a) && Enabled(cfg, Apply(cfg, s, a), b)
    ensures RunFrom(cfg, s, [a, b]) == Some(Apply(cfg, Apply(cfg, s, a), b))
  {
    OneStep(cfg, s, a);
    assert [a, b][..1] == [a];
  }

  /** LogMetric has no closed check, so every call after Shutdown has closed the channels panics. */
  lemma MetricAfterShutdownPanics(cfg: Config, s: State, p: nat, e: AuditEntry)
    requires s.q.metricsClosed && p !in s.producers
    ensures PanicsWithin(cfg, s, [BeginMetric(p, e), TrySendMetric(p)])
  {
    TwoSteps(cfg, s, BeginMetric(p, e), TrySendMetric(p));
  }
}
