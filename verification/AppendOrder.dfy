/** The queue of the append protocol is first in, first out, and with one worker so is the table. */
module AppendOrder {
  import opened Wrappers
  import opened DecisionRecord
  import opened DecisionChain
  import opened TamperEvidence
  import opened AppendProtocol
  import opened AppendInvariants
  import opened AppendChains
  import opened AppendRuns

  // ------------------------------------------------------------------- the queue

  /** What was put on the channel is what was taken from it followed by what is still there. */
  predicate Fifo(s: State) {
    s.sent == s.received + s.queue
  }

  lemma ChannelFrame(cfg: Config, s: State, act: Action)
    requires Enabled(cfg, s, act) && !act.TrySend? && !act.Receive?
    ensures var s' := Apply(cfg, s, act); s'.sent == s.sent && s'.received == s.received && s'.queue == s.queue
  {
    if WritesRow(act) {
      WriterChannelFrame(cfg, s, act);
    }
  }

  lemma WriterChannelFrame(cfg: Config, s: State, act: Action)
    requires Enabled(cfg, s, act) && WritesRow(act) && !act.Receive?
    ensures var s' := Apply(cfg, s, act); s'.sent == s.sent && s'.received == s.received && s'.queue == s.queue
  {}

  lemma FifoStep(cfg: Config, s: State, act: Action)
    requires Fifo(s) && Enabled(cfg, s, act)
    ensures Fifo(Apply(cfg, s, act))
  {
    if !act.TrySend? && !act.Receive? {
      ChannelFrame(cfg, s, act);
    }
  }

  /** In every run entries leave the queue in the order in which they were sent. */
  lemma {:induction false} QueueIsFifo(cfg: Config, acts: seq<Action>)
    ensures Run(cfg, acts).Some? ==> Fifo(Run(cfg, acts).value)
  {
    if acts != [] {
      var acts', act := acts[..|acts| - 1], acts[|acts| - 1];
      QueueIsFifo(cfg, acts');
      if Run(cfg, acts').Some? && Enabled(cfg, Run(cfg, acts').value, act) {
        FifoStep(cfg, Run(cfg, acts').value, act);
      }
    }
  }

  // ------------------------------------------------------------------ one worker

  /** A received job has been settled, or is the last one and in the worker's hand. */
  predicate PlaceOk(s: State, w: ActorId, p: nat)
    requires p < |s.received|
  {
    var id := s.received[p].id;
    || id in TableIds(s.table) || id in s.failed
    || (p == |s.received| - 1 && w in s.hand && s.hand[w] == s.received[p])
  }

  predicate DistinctJobs(jobs: seq<Job>) {
    forall p, q | 0 <= p < q < |jobs| :: jobs[p].id != jobs[q].id
  }

  /** Row i of the table records the job received at p. */
  predicate RowIs(table: seq<Row>, received: seq<Job>, i: nat, p: nat) {
    i < |table| && p < |received| && table[i].job == received[p].id
  }

  /** Rows of received jobs stand in the order of receipt. */
  ghost predicate InOrder(table: seq<Row>, received: seq<Job>) {
    forall i: nat, j: nat, p: nat, q: nat {:trigger RowIs(table, received, i, p), RowIs(table, received, j, q)} |
      i < j && RowIs(table, received, i, p) && RowIs(table, received, j, q) :: p < q
  }

  ghost predicate WorkerInv(s: State, w: ActorId) {
    && (forall p {:trigger PlaceOk(s, w, p)} | 0 <= p < |s.received| :: PlaceOk(s, w, p))
    && DistinctJobs(s.received) && InOrder(s.table, s.received)
  }

  lemma TableIdsAppend(table: seq<Row>, r: Row)
    ensures TableIds(table + [r]) == TableIds(table) + {r.job}
  {
    assert (table + [r])[|table|] == r;
  }

  lemma OrderReceive(table: seq<Row>, received: seq<Job>, job: Job)
    requires InOrder(table, received) && job.id !in TableIds(table)
    ensures InOrder(table, received + [job])
  {
    var received' := received + [job];
    forall i: nat, j: nat, p: nat, q: nat | i < j && RowIs(table, received', i, p) && RowIs(table, received', j, q) ensures p < q {
      assert table[i].job in TableIds(table) && table[j].job in TableIds(table);
      assert RowIs(table, received, i, p) && RowIs(table, received, j, q);
    }
  }

  /** A new row of the last received job, or of a job never received. */
  lemma OrderCommit(table: seq<Row>, received: seq<Job>, r: Row)
    requires InOrder(table, received) && DistinctJobs(received) && r.job !in TableIds(table)
    requires forall p | 0 <= p < |received| :: received[p].id == r.job ==> p == |received| - 1
    ensures InOrder(table + [r], received)
  {
    var table' := table + [r];
    forall i: nat, j: nat, p: nat, q: nat | i < j && RowIs(table', received, i, p) && RowIs(table', received, j, q) ensures p < q {
      assert RowIs(table, received, i, p);
      if j < |table| {
        assert RowIs(table, received, j, q);
      } else {
        assert table[i].job in TableIds(table);
      }
    }
  }

  lemma ReceiveStep(cfg: Config, s: State, w: ActorId)
    requires WorkerInv(s, w) && QueueInv(cfg, s) && JobInv(s) && Enabled(cfg, s, Receive(w))
    ensures WorkerInv(Apply(cfg, s, Receive(w)), w)
  {
    assert ActorOk(cfg, s, w);
    var s', job := Apply(cfg, s, Receive(w)), s.queue[0];
    assert job.id in QueueIds(s.queue);
    forall p | 0 <= p < |s.received| ensures PlaceOk(s', w, p) && s.received[p].id != job.id {
      assert PlaceOk(s, w, p);
    }
    OrderReceive(s.table, s.received, job);
    assert PlaceOk(s', w, |s.received|);
  }

  lemma WorkerCommitStep(cfg: Config, s: State, a: ActorId, w: ActorId)
    requires WorkerInv(s, w) && JobInv(s) && Enabled(cfg, s, Commit(a))
    ensures WorkerInv(Apply(cfg, s, Commit(a)), w)
  {
    var s' := Apply(cfg, s, Commit(a));
    var r := Row(s.hand[a].id, Stored(cfg, PhaseOf(s, a).row));
    assert s.hand[a].id in HandIds(s.hand);
    TableIdsAppend(s.table, r);
    forall p | 0 <= p < |s.received| ensures PlaceOk(s', w, p) && (s.received[p].id == r.job ==> p == |s.received| - 1) {
      assert PlaceOk(s, w, p);
    }
    OrderCommit(s.table, s.received, r);
  }

  lemma WorkerAbortStep(cfg: Config, s: State, a: ActorId, w: ActorId)
    requires WorkerInv(s, w) && Enabled(cfg, s, Abort(a))
    ensures WorkerInv(Apply(cfg, s, Abort(a)), w)
  {
    forall p | 0 <= p < |s.received| ensures PlaceOk(Apply(cfg, s, Abort(a)), w, p) {
      assert PlaceOk(s, w, p);
    }
  }

  /** The worker's entry stays in its hand through every step but those three. */
  lemma WorkerKeepsHand(cfg: Config, s: State, act: Action, w: ActorId)
    requires QueueInv(cfg, s) && Enabled(cfg, s, act) && !act.Receive? && !act.Commit? && !act.Abort? && w in cfg.workers
    ensures w in s.hand ==> w in Apply(cfg, s, act).hand && Apply(cfg, s, act).hand[w] == s.hand[w]
    ensures Apply(cfg, s, act).table == s.table && Apply(cfg, s, act).failed == s.failed
  {
    assert ActorOk(cfg, s, w);
    if ActorOf(act) != Some(w) {
      OthersKeepPhase(cfg, s, act, w);
    }
    RecordsFrame(cfg, s, act);
    FailuresFrame(cfg, s, act);
  }

  lemma FailuresFrame(cfg: Config, s: State, act: Action)
    requires Enabled(cfg, s, act) && !act.Abort?
    ensures Apply(cfg, s, act).failed == s.failed
  {
    if WritesRow(act) {
      WriterFailuresFrame(cfg, s, act);
    }
  }

  lemma WriterFailuresFrame(cfg: Config, s: State, act: Action)
    requires Enabled(cfg, s, act) && WritesRow(act) && !act.Abort?
    ensures Apply(cfg, s, act).failed == s.failed
  {}

  lemma OtherWorkerStep(cfg: Config, s: State, act: Action, w: ActorId)
    requires WorkerInv(s, w) && QueueInv(cfg, s) && Enabled(cfg, s, act) && w in cfg.workers
    requires !act.Receive? && !act.Commit? && !act.Abort?
    ensures WorkerInv(Apply(cfg, s, act), w)
  {
    WorkerKeepsHand(cfg, s, act, w);
    SameReceived(cfg, s, act);
    forall p | 0 <= p < |s.received| ensures PlaceOk(Apply(cfg, s, act), w, p) {
      assert PlaceOk(s, w, p);
    }
  }

  lemma SameReceived(cfg: Config, s: State, act: Action)
    requires Enabled(cfg, s, act) && !act.Receive?
    ensures Apply(cfg, s, act).received == s.received
  {
    if !act.TrySend? {
      ChannelFrame(cfg, s, act);
    }
  }

  lemma {:induction false} RunKeepsOrder(cfg: Config, acts: seq<Action>, w: ActorId)
    requires cfg.workers == {w}
    ensures Run(cfg, acts).Some? ==> WorkerInv(Run(cfg, acts).value, w)
  {
    if acts != [] {
      var acts', act := acts[..|acts| - 1], acts[|acts| - 1];
      RunKeepsOrder(cfg, acts', w);
      RunKeepsBase(cfg, acts');
      if Run(cfg, acts').Some? && Enabled(cfg, Run(cfg, acts').value, act) {
        var s := Run(cfg, acts').value;
        if act.Receive? {
          ReceiveStep(cfg, s, w);
        } else if act.Commit? {
          WorkerCommitStep(cfg, s, act.a, w);
        } else if act.Abort? {
          WorkerAbortStep(cfg, s, act.a, w);
        } else {
          OtherWorkerStep(cfg, s, act, w);
        }
      }
    }
  }

  // ----------------------------------------------------------------- positions

  /** A row of the table stands in its chain behind the chain's earlier rows. */
  lemma {:induction false} RowPosition(table: seq<Row>, i: nat, org: string, chain: string)
    requires i < |table| && Belongs(table[i].entry, org, chain)
    ensures var k := |Rows(table[..i], org, chain)|;
            k < |Rows(table, org, chain)| && Rows(table, org, chain)[k] == table[i].entry
  {
    var n := |table| - 1;
    if i < n {
      RowPosition(table[..n], i, org, chain);
      assert table[..n][..i] == table[..i];
    }
  }

  lemma {:induction false} RowsGrow(table: seq<Row>, i: nat, j: nat, org: string, chain: string)
    requires i < j <= |table| && Belongs(table[i].entry, org, chain)
    ensures |Rows(table[..i], org, chain)| < |Rows(table[..j], org, chain)|
  {
    assert table[..j][..j - 1] == table[..j - 1];
    if i < j - 1 {
      RowsGrow(table, i, j - 1, org, chain);
    }
  }

  /** On a linear chain table order is chain order. */
  lemma TableOrderIsChainOrder(c: Crypto, table: seq<Row>, i: nat, j: nat, org: string, chain: string)
    requires Linear(c, Rows(table, org, chain)) && i < j < |table|
    requires Belongs(table[i].entry, org, chain) && Belongs(table[j].entry, org, chain)
    ensures table[i].entry.chainSeq < table[j].entry.chainSeq
  {
    RowPosition(table, i, org, chain);
    RowPosition(table, j, org, chain);
    RowsGrow(table, i, j, org, chain);
  }

  /** Of two sent calls that one worker has committed, the one sent first stands first. */
  lemma CommittedInSendOrder(cfg: Config, acts: seq<Action>, s: State, w: ActorId, p: nat, q: nat, i: nat, j: nat)
    requires Run(cfg, acts) == Some(s) && cfg.workers == {w}
    requires p < q < |s.sent| && RowIs(s.table, s.sent, i, p) && RowIs(s.table, s.sent, j, q)
    ensures i < j
  {
    RunKeepsBase(cfg, acts);
    RunKeepsOrder(cfg, acts, w);
    QueueIsFifo(cfg, acts);
    assert s.table[i].job in TableIds(s.table) && s.table[j].job in TableIds(s.table);
    forall k | |s.received| <= k < |s.sent| ensures s.sent[k].id in QueueIds(s.queue) {
      assert s.sent[k] == s.queue[k - |s.received|];
    }
    assert RowIs(s.table, s.received, i, p) && RowIs(s.table, s.received, j, q);
  }

  /** And on one chain it has the smaller chain_seq. */
  lemma ChainFollowsSendOrder(cfg: Config, acts: seq<Action>, s: State, w: ActorId, p: nat, q: nat, i: nat, j: nat, org: string, chain: string)
    requires SharesLocks(cfg) && Run(cfg, acts) == Some(s) && cfg.workers == {w}
    requires p < q < |s.sent| && RowIs(s.table, s.sent, i, p) && RowIs(s.table, s.sent, j, q)
    requires Belongs(s.table[i].entry, org, chain) && Belongs(s.table[j].entry, org, chain)
    ensures s.table[i].entry.chainSeq < s.table[j].entry.chainSeq
  {
    CommittedInSendOrder(cfg, acts, s, w, p, q, i, j);
    NoForks(cfg, acts, org, chain);
    TableOrderIsChainOrder(cfg.c, s.table, i, j, org, chain);
  }

  // -------------------------------------------------------------- explicit runs

  /** The queue is open and caller a is between calls. */
  predicate Open(cfg: Config, s: State, a: ActorId) {
    s.shutdown.Running? && !s.closed && !s.channelClosed && !s.panicked && PhaseOf(s, a).Idle?
  }

  /** A call that finds the queue open, with room in it, is queued behind all others. */
  lemma SendNext(cfg: Config, before: seq<Action>, s0: State, a: ActorId, e: DecisionEntry) returns (acts: seq<Action>, s: State)
    requires Run(cfg, before) == Some(s0) && Open(cfg, s0, a)
    requires cfg.async && a !in cfg.workers && a !in cfg.others && e.body.orgId != "" && |s0.queue| < cfg.capacity
    ensures Run(cfg, acts) == Some(s) && Open(cfg, s, a)
    ensures s.queue == s0.queue + [Job(s0.recorded, e)] && s.sent == s0.sent + [Job(s0.recorded, e)] && s.recorded == s0.recorded + 1
    ensures s.table == s0.table && s.received == s0.received && s.locks == s0.locks
    ensures forall b: ActorId | b != a :: PhaseOf(s, b) == PhaseOf(s0, b)
  {
    acts, s := before, s0;
    Extend(cfg, acts, s, Call(a, e));
    acts, s := acts + [Call(a, e)], Apply(cfg, s, Call(a, e));
    Extend(cfg, acts, s, ReadLock(a));
    acts, s := acts + [ReadLock(a)], Apply(cfg, s, ReadLock(a));
    Extend(cfg, acts, s, LoadClosed(a));
    acts, s := acts + [LoadClosed(a)], Apply(cfg, s, LoadClosed(a));
    Extend(cfg, acts, s, TrySend(a));
    acts, s := acts + [TrySend(a)], Apply(cfg, s, TrySend(a));
    Extend(cfg, acts, s, ReadUnlock(a));
    acts, s := acts + [ReadUnlock(a)], Apply(cfg, s, ReadUnlock(a));
  }

  /** The queue takes any calls up to its capacity, in order. */
  lemma {:induction false} QueueFillsUp(cfg: Config, a: ActorId, es: seq<DecisionEntry>) returns (acts: seq<Action>, s: State)
    requires cfg.async && a !in cfg.workers && a !in cfg.others && |es| <= cfg.capacity
    requires forall i | 0 <= i < |es| :: es[i].body.orgId != ""
    ensures Run(cfg, acts) == Some(s) && Open(cfg, s, a) && |s.queue| == |es|
    ensures s.table == [] && s.received == [] && s.sent == s.queue && s.locks == map[] && s.recorded == |es|
    ensures forall b: ActorId | b != a :: PhaseOf(s, b).Idle?
    ensures forall i | 0 <= i < |es| :: s.queue[i] == Job(i, es[i])
  {
    if es == [] {
      acts, s := [], INIT;
    } else {
      var n := |es| - 1;
      acts, s := QueueFillsUp(cfg, a, es[..n]);
      var queue := s.queue;
      acts, s := SendNext(cfg, acts, s, a, es[n]);
      assert s.queue[..n] == queue;
    }
  }

  /** Every actor but one stays in its phase. */
  ghost predicate OthersStay(s: State, s': State, a: ActorId) {
    forall b: ActorId | b != a :: PhaseOf(s', b) == PhaseOf(s, b)
  }

  lemma TakeNext(cfg: Config, before: seq<Action>, s0: State, w: ActorId) returns (acts: seq<Action>, s: State)
    requires Run(cfg, before) == Some(s0) && w in cfg.workers && PhaseOf(s0, w).Idle? && s0.queue != []
    ensures Run(cfg, acts) == Some(s) && PhaseOf(s, w).NeedsLock? && OthersStay(s0, s, w)
    ensures s.queue == s0.queue[1..] && s.hand == s0.hand[w := s0.queue[0]]
    ensures s.table == s0.table && s.locks == s0.locks && s.sent == s0.sent
  {
    Extend(cfg, before, s0, Receive(w));
    acts, s := before + [Receive(w)], Apply(cfg, s0, Receive(w));
  }

  /** An actor that needs the lock of an empty chain comes to seal its first record. */
  lemma SealFirst(cfg: Config, before: seq<Action>, s0: State, v: ActorId) returns (acts: seq<Action>, s: State)
    requires Run(cfg, before) == Some(s0) && PhaseOf(s0, v).NeedsLock? && v in s0.hand && s0.locks == map[]
    requires ChainRows(cfg, s0, s0.hand[v].entry) == []
    ensures Run(cfg, acts) == Some(s) && s.hand == s0.hand && s.table == s0.table && s.sent == s0.sent && OthersStay(s0, s, v)
    ensures PhaseOf(s, v) == Sealed(SealFromTail(cfg.c, cfg.signer(v), s0.hand[v].entry, None))
    ensures s.locks == map[Key(cfg, s0.hand[v].entry) := v]
  {
    acts, s := before, s0;
    Extend(cfg, acts, s, TakeLock(v));
    acts, s := acts + [TakeLock(v)], Apply(cfg, s, TakeLock(v));
    Extend(cfg, acts, s, SealRow(v, None));
    acts, s := acts + [SealRow(v, None)], Apply(cfg, s, SealRow(v, None));
  }

  lemma CommitFirst(cfg: Config, before: seq<Action>, s0: State, v: ActorId) returns (acts: seq<Action>, s: State)
    requires Run(cfg, before) == Some(s0) && PhaseOf(s0, v).NeedsLock? && v in s0.hand && s0.locks == map[]
    requires ChainRows(cfg, s0, s0.hand[v].entry) == []
    ensures Run(cfg, acts) == Some(s) && s.locks == map[] && s.hand == s0.hand - {v} && s.sent == s0.sent && OthersStay(s0, s, v)
    ensures s.table == s0.table + [Row(s0.hand[v].id, Stored(cfg, SealFromTail(cfg.c, cfg.signer(v), s0.hand[v].entry, None)))]
  {
    acts, s := SealFirst(cfg, before, s0, v);
    Extend(cfg, acts, s, Commit(v));
    acts, s := acts + [Commit(v)], Apply(cfg, s, Commit(v));
  }

  lemma TwoTaken(cfg: Config, a: ActorId, w: ActorId, v: ActorId, e: DecisionEntry, f: DecisionEntry) returns (acts: seq<Action>, s: State)
    requires cfg.async && a !in cfg.workers && a !in cfg.others && cfg.capacity >= 2 && w in cfg.workers && v in cfg.workers && w != v
    requires e.body.orgId != "" && f.body.orgId != ""
    ensures Run(cfg, acts) == Some(s) && s.table == [] && s.locks == map[] && w in s.hand && v in s.hand
    ensures PhaseOf(s, w).NeedsLock? && PhaseOf(s, v).NeedsLock? && s.sent == [s.hand[w], s.hand[v]]
    ensures s.hand[w] == Job(0, e) && s.hand[v] == Job(1, f)
  {
    acts, s := QueueFillsUp(cfg, a, [e, f]);
    assert s.queue == [Job(0, e), Job(1, f)];
    var s1;
    acts, s1 := TakeNext(cfg, acts, s, w);
    acts, s := TakeNext(cfg, acts, s1, v);
  }

  /** With two workers the order of sending is not the order of the table: two entries of different chains, committed in reverse. */
  lemma TwoWorkersCanReverse(cfg: Config, a: ActorId, w: ActorId, v: ActorId, e: DecisionEntry, f: DecisionEntry) returns (acts: seq<Action>, s: State)
    requires cfg.async && a !in cfg.workers && a !in cfg.others && cfg.capacity >= 2 && w in cfg.workers && v in cfg.workers && w != v
    requires e.body.orgId != "" && f.body.orgId != "" && !Belongs(Stored(cfg, f), e.body.orgId, cfg.canonical(e.body.chainId))
    ensures Run(cfg, acts) == Some(s) && RowIs(s.table, s.sent, 1, 0) && RowIs(s.table, s.sent, 0, 1)
  {
    acts, s := TwoTaken(cfg, a, w, v, e, f);
    var sent := s.sent;
    acts, s := CommitFirst(cfg, acts, s, v);
    RowsAppend([], s.table[0], e.body.orgId, cfg.canonical(e.body.chainId));
    assert s.table == [] + [s.table[0]];
    acts, s := CommitFirst(cfg, acts, s, w);
  }

  /** Shutdown can come to its end: every worker finds the closed queue empty and returns. */
  lemma ShutdownCanFinish(cfg: Config) returns (acts: seq<Action>, s: State)
    requires cfg.async
    ensures Run(cfg, acts) == Some(s) && s.shutdown.Complete?
  {
    acts, s := CloseQueue(cfg);
    var rest := cfg.workers;
    while rest != {}
      invariant Run(cfg, acts) == Some(s) && rest <= cfg.workers
      invariant s.shutdown.Waiting? && s.channelClosed && s.queue == []
      invariant forall w | w in cfg.workers :: if w in rest then PhaseOf(s, w).Idle? else PhaseOf(s, w).Exited?
      decreases |rest|
    {
      var w :| w in rest;
      Extend(cfg, acts, s, Exit(w));
      acts, s := acts + [Exit(w)], Apply(cfg, s, Exit(w));
      rest := rest - {w};
    }
    Extend(cfg, acts, s, FinishShutdown);
    acts, s := acts + [FinishShutdown], Apply(cfg, s, FinishShutdown);
  }
}
