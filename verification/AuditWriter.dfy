/**
 The audit queue's own code, one call at a time: the producers' entry points, the
 worker with its three attempts, and the metrics batcher with its reused buffer. Each
 method is tied to the steps of AuditQueue, or to a function built from them.
 */
module AuditWriter {
  import opened Wrappers
  import opened AuditQueue

  /** A row of policy_metrics: its policy and its day. */
  datatype MetricKey = MetricKey(policy: string, day: int)

  datatype Tally = Tally(hits: nat, blocks: nat)

  type PolicyMetrics = map<MetricKey, Tally>

  /** A metric updates its policy's row of the day when it names a policy and an org; other entries are skipped. */
  predicate Counts(e: AuditEntry) {
    e.policyId.Some? && e.orgId != ""
  }

  function Upsert(table: PolicyMetrics, e: AuditEntry, day: int): PolicyMetrics
    requires Counts(e)
  {
    var blocks := if e.blocked then 1 else 0;
    var key := MetricKey(e.policyId.value, day);
    table[key := if key in table then Tally(table[key].hits + 1, table[key].blocks + blocks) else Tally(1, blocks)]
  }

  /** The database's side of one flush: which writes succeed, and the day each one falls on. */
  datatype Writes = Writes(ok: nat -> bool, day: nat -> int)

  /** How many of the first n metrics of the batch reach a row, of all or of the blocked ones. */
  function HitsOf(batch: seq<AuditEntry>, w: Writes, key: MetricKey, onlyBlocked: bool, n: nat): nat
    requires n <= |batch|
  {
    if n == 0 then 0
    else
      var e := batch[n - 1];
      var hit := e.policyId.Some? && e.orgId != "" && MetricKey(e.policyId.value, w.day(n - 1)) == key && w.ok(n - 1) && (onlyBlocked ==> e.blocked);
      HitsOf(batch, w, key, onlyBlocked, n - 1) + (if hit then 1 else 0)
  }

  function Tallied(row: Tally, batch: seq<AuditEntry>, w: Writes, key: MetricKey, n: nat): Tally
    requires n <= |batch|
  {
    Tally(row.hits + HitsOf(batch, w, key, false, n), row.blocks + HitsOf(batch, w, key, true, n))
  }

  function TallyOf(table: PolicyMetrics, key: MetricKey): Tally {
    if key in table then table[key] else Tally(0, 0)
  }

  // --------------------------------------------------------- the worker's run

  predicate StoredWithin(cfg: Config, db: nat -> bool, attempts: nat) {
    cfg.hasDb && exists k: nat :: k < attempts && db(k)
  }

  /** A worker's turn with the first entry, which is stored when one of its three attempts succeeds. */
  ghost function WorkerStep(cfg: Config, q: Queue, db: nat -> bool, fallbackOk: bool): Queue
    requires q.queue != []
  {
    FinishEntry(q.(queue := q.queue[1..]), q.queue[0], StoredWithin(cfg, db, MAX_ATTEMPTS), fallbackOk)
  }

  /** The worker's run over the queue, entry i with its own database answers. */
  ghost function WorkerRun(cfg: Config, q: Queue, db: nat -> nat -> bool, fallbackOk: nat -> bool, i: nat): Queue
    decreases |q.queue|
  {
    if q.queue == [] then q else WorkerRun(cfg, WorkerStep(cfg, q, db(i), fallbackOk(i)), db, fallbackOk, i + 1)
  }

  /** Every accepted entry is stored or given up on, and then in the fallback file or a failed write. */
  predicate Settling(accepted: seq<AuditEntry>, q: Queue) {
    Balanced(accepted, q.stored, q.given, q.queue, multiset{}) && FallbackHolds(q.given, q.fallback, q.lost)
  }

  lemma StepSettles(cfg: Config, q: Queue, db: nat -> bool, fallbackOk: bool, accepted: seq<AuditEntry>)
    requires q.queue != [] && Settling(accepted, q)
    ensures Settling(accepted, WorkerStep(cfg, q, db, fallbackOk))
  {
    var e := q.queue[0];
    BalancedTake(accepted, q.stored, q.given, q.queue, multiset{});
    BalancedMoves(accepted, q.stored, q.given, q.queue[1..], multiset{e}, e);
    assert multiset{e} - multiset{e} == multiset{};
    FallbackGrows(q.given, q.fallback, q.lost, e);
  }

  lemma StepCounts(cfg: Config, q: Queue, db: nat -> bool, fallbackOk: bool)
    requires q.queue != []
    ensures var r := WorkerStep(cfg, q, db, fallbackOk);
            && r.queue == q.queue[1..] && r.processed + r.failed == q.processed + q.failed + 1
            && (!cfg.hasDb ==> r.stored == q.stored)
  {}

  lemma {:induction false} WorkerRunSettles(cfg: Config, q: Queue, db: nat -> nat -> bool, fallbackOk: nat -> bool, i: nat,
                                            accepted: seq<AuditEntry>)
    requires Settling(accepted, q)
    ensures var r := WorkerRun(cfg, q, db, fallbackOk, i);
            && r.queue == [] && Settling(accepted, r)
            && r.processed + r.failed == q.processed + q.failed + |q.queue|
            && (!cfg.hasDb ==> r.stored == q.stored)
    decreases |q.queue|
  {
    if q.queue != [] {
      StepSettles(cfg, q, db(i), fallbackOk(i), accepted);
      StepCounts(cfg, q, db(i), fallbackOk(i));
      WorkerRunSettles(cfg, WorkerStep(cfg, q, db(i), fallbackOk(i)), db, fallbackOk, i + 1, accepted);
    }
  }

  /** The retry loop: at most three attempts, each failure adding one to the retry count. */
  method WriteWithRetries(cfg: Config, entry: AuditEntry, db: nat -> bool) returns (err: bool, e: AuditEntry)
    ensures err <==> !StoredWithin(cfg, db, MAX_ATTEMPTS)
    ensures err ==> e == Retried(entry)
  {
    e, err := entry, true;
    var retry := 0;
    while retry < MAX_ATTEMPTS
      invariant retry <= MAX_ATTEMPTS && err && e == entry.(retries := entry.retries + retry)
      invariant !StoredWithin(cfg, db, retry)
    {
      if cfg.hasDb && db(retry) {
        return false, e;
      }
      e := e.(retries := e.retries + 1);
      retry := retry + 1;
    }
  }

  // -------------------------------------------------------- the batcher's run

  /** The batcher's run until the closed channel is drained, with a tick after receive i when ticks(i). */
  function BatcherRun(cfg: Config, q: Queue, ticks: nat -> bool, i: nat): Queue
    decreases |q.metrics|
  {
    if q.metrics == [] then FlushOpenBatch(cfg, q)
    else
      var q' := ReceiveMetric(cfg, q);
      BatcherRun(cfg, if ticks(i) then FlushOpenBatch(cfg, q') else q', ticks, i + 1)
  }

  /** All metrics are flushed, in arrival order, in non-empty batches of at most 100. */
  lemma {:induction false} BatcherRunKeepsOrder(cfg: Config, q: Queue, ticks: nat -> bool, i: nat, accepted: seq<AuditEntry>)
    requires Ordered(accepted, q.flushed, q.batch, q.metrics)
    ensures var r := BatcherRun(cfg, q, ticks, i);
            r.metrics == [] && r.batch == [] && Ordered(accepted, r.flushed, [], []) && Flat(r.flushed) == accepted
    decreases |q.metrics|
  {
    if q.metrics == [] {
      OrderedFlushOpen(cfg, accepted, q);
    } else {
      var q' := ReceiveMetric(cfg, q);
      OrderedReceive(cfg, accepted, q);
      OrderedFlushOpen(cfg, accepted, q');
      BatcherRunKeepsOrder(cfg, if ticks(i) then FlushOpenBatch(cfg, q') else q', ticks, i + 1, accepted);
    }
  }

  // ------------------------------------------------------------- the object

  class AuditWriter {
    const cfg: Config
    var queue: seq<AuditEntry>
    var metrics: seq<AuditEntry>
    var closed: bool
    var queueClosed: bool
    var metricsClosed: bool
    var queued: nat
    var processed: nat
    var failed: nat
    var fallback: seq<AuditEntry>
    var policyMetrics: PolicyMetrics
    ghost var lost: multiset<AuditEntry>
    ghost var stored: seq<AuditEntry>
    ghost var given: seq<AuditEntry>
    ghost var flushed: seq<seq<AuditEntry>>

    /** The object as a value, with the batcher's local batch beside it. */
    ghost function View(batch: seq<AuditEntry>): Queue
      reads this
    {
      Queue(queue, metrics, batch, closed, queueClosed, metricsClosed, queued, processed, failed, fallback, lost, stored, given, flushed)
    }

    constructor (cfg: Config)
      ensures this.cfg == cfg && View([]) == EMPTY && policyMetrics == map[]
    {
      this.cfg := cfg;
      queue, metrics, closed, queueClosed, metricsClosed := [], [], false, false, false;
      queued, processed, failed, fallback, policyMetrics := 0, 0, 0, [], map[];
      lost, stored, given, flushed := multiset{}, [], [], [];
    }

    method WriteToFallback(e: AuditEntry, ok: bool)
      modifies this`fallback, this`lost
      ensures View([]) == AppendFallback(old(View([])), e, ok)
    {
      if ok {
        fallback := fallback + [e];
      } else {
        lost := lost + multiset{e};
      }
    }

    /**
     A full queue spills to the fallback file at once; only an accepted entry is counted.
     A send on the closed channel panics and leaves everything as it was.
     */
    method QueueEntry(e: AuditEntry, fallbackOk: bool) returns (panics: bool)
      modifies this`queue, this`queued, this`fallback, this`lost
      ensures panics <==> !old(closed) && old(queueClosed)
      ensures View([]) ==
              if panics then old(View([]))
              else if old(closed) || |old(queue)| >= cfg.capacity then AppendFallback(old(View([])), e, fallbackOk)
              else CountQueued(PushEntry(old(View([])), e))
    {
      if closed {
        WriteToFallback(e, fallbackOk);
        return false;
      }
      if queueClosed {
        return true;
      }
      if |queue| < cfg.capacity {
        queue := queue + [e];
        queued := queued + 1;
      } else {
        WriteToFallback(e, fallbackOk);
      }
      return false;
    }

    /** A metric is dropped, uncounted, when its channel is full; there is no closed check. */
    method LogMetric(e: AuditEntry) returns (panics: bool)
      modifies this`metrics, this`queued
      ensures panics == old(metricsClosed)
      ensures View([]) ==
              if panics || |old(metrics)| >= METRICS_CAPACITY then old(View([]))
              else CountQueued(PushMetric(old(View([])), e))
    {
      if metricsClosed {
        return true;
      }
      if |metrics| < METRICS_CAPACITY {
        metrics := metrics + [e];
        queued := queued + 1;
      }
      return false;
    }

    /** One entry in a worker's hand. */
    method ProcessEntry(entry: AuditEntry, db: nat -> bool, fallbackOk: bool)
      modifies this`processed, this`failed, this`fallback, this`lost, this`stored, this`given
      ensures View([]) == FinishEntry(old(View([])), entry, StoredWithin(cfg, db, MAX_ATTEMPTS), fallbackOk)
    {
      var err, e := WriteWithRetries(cfg, entry, db);
      if err {
        failed := failed + 1;
        given := given + [entry];
        WriteToFallback(e, fallbackOk);
      } else {
        processed := processed + 1;
        stored := stored + [entry];
      }
    }

    method ProcessNext(db: nat -> bool, fallbackOk: bool)
      requires queue != []
      modifies this`queue, this`processed, this`failed, this`fallback, this`lost, this`stored, this`given
      ensures View([]) == WorkerStep(cfg, old(View([])), db, fallbackOk)
    {
      var entry := queue[0];
      queue := queue[1..];
      ProcessEntry(entry, db, fallbackOk);
    }

    /** A worker left alone with a closed queue drains it. */
    method Worker(db: nat -> nat -> bool, fallbackOk: nat -> bool)
      modifies this`queue, this`processed, this`failed, this`fallback, this`lost, this`stored, this`given
      ensures View([]) == WorkerRun(cfg, old(View([])), db, fallbackOk, 0)
    {
      var i := 0;
      while queue != []
        invariant WorkerRun(cfg, View([]), db, fallbackOk, i) == WorkerRun(cfg, old(View([])), db, fallbackOk, 0)
        decreases |queue|
      {
        StepCounts(cfg, View([]), db(i), fallbackOk(i));
        ProcessNext(db(i), fallbackOk(i));
        i := i + 1;
      }
    }

    /**
     Upserts the rows of one batch. processed grows by the whole batch, whatever its
     writes did; each policy's row of a day grows by exactly the metrics that reached it.
     */
    method FlushMetricsBatch(batch: seq<AuditEntry>, w: Writes)
      modifies this`processed, this`policyMetrics
      ensures processed == old(processed) + (if cfg.hasDb then |batch| else 0)
      ensures !cfg.hasDb ==> policyMetrics == old(policyMetrics)
      ensures cfg.hasDb ==> forall p: MetricKey :: TallyOf(policyMetrics, p) == Tallied(TallyOf(old(policyMetrics), p), batch, w, p, |batch|)
    {
      if !cfg.hasDb || |batch| == 0 {
        return;
      }
      for i := 0 to |batch|
        invariant processed == old(processed)
        invariant forall p: MetricKey :: TallyOf(policyMetrics, p) == Tallied(TallyOf(old(policyMetrics), p), batch, w, p, i)
      {
        if Counts(batch[i]) && w.ok(i) {
          policyMetrics := Upsert(policyMetrics, batch[i], w.day(i));
        }
      }
      processed := processed + |batch|;
    }

    /** The batcher reuses one buffer of 100 entries for every batch. */
    method MetricsBatcher(ticks: nat -> bool, writes: nat -> Writes)
      modifies this`metrics, this`processed, this`policyMetrics, this`flushed
      ensures View([]) == BatcherRun(cfg, old(View([])), ticks, 0)
    {
      var batch := new AuditEntry[BATCH_SIZE](_ => AuditEntry("", "", None, false, "", 0));
      var n, i := 0, 0;
      while metrics != []
        invariant n < BATCH_SIZE == batch.Length && fresh(batch)
        invariant BatcherRun(cfg, View(batch[..n]), ticks, i) == BatcherRun(cfg, old(View([])), ticks, 0)
        decreases |metrics|
      {
        ghost var before := View(batch[..n]);
        batch[n] := metrics[0];
        n := n + 1;
        metrics := metrics[1..];
        assert batch[..n] == before.batch + [before.metrics[0]];
        if n >= BATCH_SIZE {
          n := FlushBuffer(batch, n, writes(i));
        }
        assert View(batch[..n]) == ReceiveMetric(cfg, before);
        if ticks(i) && n > 0 {
          n := FlushBuffer(batch, n, writes(i));
        }
        i := i + 1;
      }
      if n > 0 {
        n := FlushBuffer(batch, n, writes(i));
      }
    }

    /** flushMetricsBatch on the filled part of the buffer, which is then reused from its start. */
    method FlushBuffer(batch: array<AuditEntry>, n: nat, w: Writes) returns (empty: nat)
      requires n <= batch.Length
      modifies this`processed, this`policyMetrics, this`flushed
      ensures empty == 0 && View(batch[..empty]) == Flush(cfg, old(View(batch[..n])))
    {
      FlushMetricsBatch(batch[..n], w);
      flushed := flushed + [batch[..n]];
      empty := 0;
    }
  }
}
