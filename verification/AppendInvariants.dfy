/** What every run of the append protocol keeps. */
module AppendInvariants {
  import opened Wrappers
  import opened DecisionRecord
  import opened DecisionChain
  import opened TamperEvidence
  import opened AppendProtocol

  // ---------------------------------------------------- queue and shutdown

  predicate CallerPhase(p: Phase) {
    p.Counted? || HoldsQueueLock(p)
  }

  /** What holds of one actor, given the shared flags. */
  predicate ActorOk(cfg: Config, s: State, a: ActorId) {
    var p := PhaseOf(s, a);
    && (a in s.hand <==> Busy(p))
    && (HoldsQueueLock(p) ==> !s.shutdown.Locked? && !s.shutdown.FlagSet? && !s.shutdown.ChannelClosed?)
    && (p.SeesOpen? ==> !s.closed)
    && (a in cfg.workers ==> !CallerPhase(p))
    && (p.Exited? ==> s.channelClosed && s.queue == [])
  }

  ghost predicate QueueInv(cfg: Config, s: State) {
    && !s.panicked
    && |s.queue| <= cfg.capacity
    && (s.closed <==> !s.shutdown.Running? && !s.shutdown.Locked?)
    && (s.channelClosed <==> s.closed && !s.shutdown.FlagSet?)
    && (s.shutdown.Complete? ==> forall w | w in cfg.workers :: PhaseOf(s, w).Exited?)
    && forall a {:trigger ActorOk(cfg, s, a)} :: ActorOk(cfg, s, a)
  }

  /** The actor an action belongs to, if any. */
  function ActorOf(act: Action): Option<ActorId> {
    match act
    case LockQueue => None
    case SetClosed => None
    case CloseChannel => None
    case UnlockQueue => None
    case FinishShutdown => None
    case TimeOut => None
    case _ => Some(act.a)
  }

  /** The steps of recordToDB and of the worker loop. */
  predicate WritesRow(act: Action) {
    act.Receive? || act.Exit? || act.TakeLock? || act.SealRow? || act.Commit? || act.Abort?
  }

  /** Actor b stays where it is, with the same entry in hand. */
  predicate Stays(s: State, s': State, b: ActorId) {
    && PhaseOf(s', b) == PhaseOf(s, b) && (b in s'.hand <==> b in s.hand)
    && (b in s.hand ==> s'.hand[b] == s.hand[b])
  }

  lemma WriterLeavesOthers(cfg: Config, s: State, act: Action, b: ActorId)
    requires Enabled(cfg, s, act) && ActorOf(act) != Some(b) && WritesRow(act)
    ensures Stays(s, Apply(cfg, s, act), b)
  {}

  lemma OthersKeepPhase(cfg: Config, s: State, act: Action, b: ActorId)
    requires Enabled(cfg, s, act) && ActorOf(act) != Some(b)
    ensures Stays(s, Apply(cfg, s, act), b)
  {
    if WritesRow(act) {
      WriterLeavesOthers(cfg, s, act, b);
    }
  }

  lemma OthersStayOk(cfg: Config, s: State, act: Action, b: ActorId)
    requires QueueInv(cfg, s) && Enabled(cfg, s, act) && ActorOf(act) != Some(b)
    ensures ActorOk(cfg, Apply(cfg, s, act), b)
  {
    assert ActorOk(cfg, s, b);
    OthersKeepPhase(cfg, s, act, b);
    if act.TrySend? {
      assert ActorOk(cfg, s, act.a);
    }
  }

  lemma TransactionStaysOk(cfg: Config, s: State, act: Action)
    requires ActorOf(act).Some? && ActorOk(cfg, s, act.a) && Enabled(cfg, s, act)
    requires act.TakeLock? || act.SealRow? || act.Commit? || act.Abort?
    ensures ActorOk(cfg, Apply(cfg, s, act), act.a)
  {}

  lemma WriterStaysOk(cfg: Config, s: State, act: Action)
    requires ActorOf(act).Some? && ActorOk(cfg, s, act.a) && Enabled(cfg, s, act) && WritesRow(act)
    ensures ActorOk(cfg, Apply(cfg, s, act), act.a)
  {
    if !act.Receive? && !act.Exit? {
      TransactionStaysOk(cfg, s, act);
    }
  }

  lemma CallerStaysOk(cfg: Config, s: State, act: Action)
    requires ActorOf(act).Some? && ActorOk(cfg, s, act.a) && Enabled(cfg, s, act) && !WritesRow(act)
    requires !s.panicked && (s.channelClosed ==> s.closed)
    ensures ActorOk(cfg, Apply(cfg, s, act), act.a)
  {}

  lemma ActorStaysOk(cfg: Config, s: State, act: Action)
    requires QueueInv(cfg, s) && Enabled(cfg, s, act) && ActorOf(act).Some?
    ensures ActorOk(cfg, Apply(cfg, s, act), act.a)
  {
    assert ActorOk(cfg, s, act.a);
    if WritesRow(act) {
      WriterStaysOk(cfg, s, act);
    } else {
      CallerStaysOk(cfg, s, act);
    }
  }

  lemma ActorsStep(cfg: Config, s: State, act: Action, b: ActorId)
    requires QueueInv(cfg, s) && Enabled(cfg, s, act)
    ensures ActorOk(cfg, Apply(cfg, s, act), b)
  {
    if ActorOf(act) == Some(b) {
      ActorStaysOk(cfg, s, act);
    } else {
      OthersStayOk(cfg, s, act, b);
    }
  }

  lemma WorkersStayExited(cfg: Config, s: State, act: Action, w: ActorId)
    requires QueueInv(cfg, s) && Enabled(cfg, s, act) && w in cfg.workers && PhaseOf(s, w).Exited?
    ensures PhaseOf(Apply(cfg, s, act), w).Exited?
  {
    assert ActorOk(cfg, s, w);
    if ActorOf(act) != Some(w) {
      OthersKeepPhase(cfg, s, act, w);
    }
  }

  lemma FlagsStep(cfg: Config, s: State, act: Action)
    requires QueueInv(cfg, s) && Enabled(cfg, s, act)
    ensures var s' := Apply(cfg, s, act);
            && !s'.panicked && |s'.queue| <= cfg.capacity
            && (s'.closed <==> !s'.shutdown.Running? && !s'.shutdown.Locked?)
            && (s'.channelClosed <==> s'.closed && !s'.shutdown.FlagSet?)
  {
    if act.TrySend? {
      assert ActorOk(cfg, s, act.a);
    }
  }

  lemma QueueInvStep(cfg: Config, s: State, act: Action)
    requires QueueInv(cfg, s) && Enabled(cfg, s, act)
    ensures QueueInv(cfg, Apply(cfg, s, act))
  {
    var s' := Apply(cfg, s, act);
    FlagsStep(cfg, s, act);
    forall b: ActorId ensures ActorOk(cfg, s', b) {
      ActorsStep(cfg, s, act, b);
    }
    forall w | w in cfg.workers && s'.shutdown.Complete? ensures PhaseOf(s', w).Exited? {
      if !act.FinishShutdown? {
        WorkersStayExited(cfg, s, act, w);
      }
    }
  }

  // ------------------------------------------------------------ conservation

  function QueueIds(queue: seq<Job>): set<nat> {
    set j | j in queue :: j.id
  }

  function TableIds(table: seq<Row>): set<nat> {
    set r | r in table :: r.job
  }

  function HandIds(hand: map<ActorId, Job>): set<nat> {
    set a | a in hand :: hand[a].id
  }

  /** The first n ids are spread over four places, each id in exactly one and there once. */
  ghost predicate Accounted(hand: map<ActorId, Job>, queue: seq<Job>, table: seq<Row>, failed: set<nat>, n: nat) {
    && DistinctHands(hand) && DistinctQueue(queue) && DistinctTable(table)
    && HandIds(hand) !! QueueIds(queue) !! TableIds(table) !! failed
    && (forall id :: 0 <= id < n <==> id in HandIds(hand) || id in QueueIds(queue) || id in TableIds(table) || id in failed)
  }

  /** Every counted call is mid-call or in a worker's hand, queued, committed, or counted as a write error. */
  ghost predicate JobInv(s: State) {
    && Accounted(s.hand, s.queue, s.table, s.failed, s.recorded)
    && s.recordErrors == s.rejected + |s.failed|
  }

  predicate DistinctHands(hand: map<ActorId, Job>) {
    forall a, b | a in hand && b in hand && a != b :: hand[a].id != hand[b].id
  }

  predicate DistinctQueue(queue: seq<Job>) {
    forall i, j | 0 <= i < j < |queue| :: queue[i].id != queue[j].id
  }

  predicate DistinctTable(table: seq<Row>) {
    forall i, j | 0 <= i < j < |table| :: table[i].job != table[j].job
  }

  lemma PushQueue(queue: seq<Job>, j: Job)
    requires DistinctQueue(queue) && j.id !in QueueIds(queue)
    ensures DistinctQueue(queue + [j]) && QueueIds(queue + [j]) == QueueIds(queue) + {j.id}
  {
    assert forall i | 0 <= i < |queue| :: queue[i].id in QueueIds(queue);
    assert forall k | k in queue :: k in queue + [j];
    assert (queue + [j])[|queue|] == j;
  }

  lemma PopQueue(queue: seq<Job>)
    requires DistinctQueue(queue) && queue != []
    ensures DistinctQueue(queue[1..]) && QueueIds(queue[1..]) == QueueIds(queue) - {queue[0].id}
  {
    assert queue == [queue[0]] + queue[1..];
    assert forall k | k in queue[1..] :: k in queue && k.id != queue[0].id;
  }

  lemma PushTable(table: seq<Row>, r: Row)
    requires DistinctTable(table) && r.job !in TableIds(table)
    ensures DistinctTable(table + [r]) && TableIds(table + [r]) == TableIds(table) + {r.job}
  {
    assert forall i | 0 <= i < |table| :: table[i].job in TableIds(table);
    assert forall k | k in table :: k in table + [r];
    assert (table + [r])[|table|] == r;
  }

  lemma AddHand(hand: map<ActorId, Job>, a: ActorId, j: Job)
    requires DistinctHands(hand) && a !in hand && j.id !in HandIds(hand)
    ensures DistinctHands(hand[a := j]) && HandIds(hand[a := j]) == HandIds(hand) + {j.id}
  {
    var hand' := hand[a := j];
    assert forall b | b in hand :: hand[b].id in HandIds(hand) && hand'[b] == hand[b];
    assert hand'[a].id in HandIds(hand');
    forall id | id in HandIds(hand) ensures id in HandIds(hand') {
      var b :| b in hand && hand[b].id == id;
      assert hand'[b].id == id;
    }
  }

  lemma DropHand(hand: map<ActorId, Job>, a: ActorId)
    requires DistinctHands(hand) && a in hand
    ensures DistinctHands(hand - {a}) && HandIds(hand - {a}) == HandIds(hand) - {hand[a].id}
  {
    var hand' := hand - {a};
    forall id | id in HandIds(hand) - {hand[a].id} ensures id in HandIds(hand') {
      var b :| b in hand && hand[b].id == id;
      assert b in hand' && hand'[b].id == id;
    }
  }

  lemma AccountCall(hand: map<ActorId, Job>, queue: seq<Job>, table: seq<Row>, failed: set<nat>, n: nat, a: ActorId, e: DecisionEntry)
    requires Accounted(hand, queue, table, failed, n) && a !in hand
    ensures Accounted(hand[a := Job(n, e)], queue, table, failed, n + 1)
  {
    AddHand(hand, a, Job(n, e));
  }

  lemma AccountSend(hand: map<ActorId, Job>, queue: seq<Job>, table: seq<Row>, failed: set<nat>, n: nat, a: ActorId)
    requires Accounted(hand, queue, table, failed, n) && a in hand
    ensures Accounted(hand - {a}, queue + [hand[a]], table, failed, n)
  {
    assert hand[a].id in HandIds(hand);
    PushQueue(queue, hand[a]);
    DropHand(hand, a);
  }

  lemma AccountReceive(hand: map<ActorId, Job>, queue: seq<Job>, table: seq<Row>, failed: set<nat>, n: nat, a: ActorId)
    requires Accounted(hand, queue, table, failed, n) && a !in hand && queue != []
    ensures Accounted(hand[a := queue[0]], queue[1..], table, failed, n)
  {
    assert queue[0].id in QueueIds(queue);
    PopQueue(queue);
    AddHand(hand, a, queue[0]);
  }

  lemma AccountCommit(hand: map<ActorId, Job>, queue: seq<Job>, table: seq<Row>, failed: set<nat>, n: nat, a: ActorId, row: DecisionEntry)
    requires Accounted(hand, queue, table, failed, n) && a in hand
    ensures Accounted(hand - {a}, queue, table + [Row(hand[a].id, row)], failed, n)
  {
    assert hand[a].id in HandIds(hand);
    PushTable(table, Row(hand[a].id, row));
    DropHand(hand, a);
  }

  lemma AccountAbort(hand: map<ActorId, Job>, queue: seq<Job>, table: seq<Row>, failed: set<nat>, n: nat, a: ActorId)
    requires Accounted(hand, queue, table, failed, n) && a in hand
    ensures Accounted(hand - {a}, queue, table, failed + {hand[a].id}, n)
    ensures hand[a].id !in failed
  {
    assert hand[a].id in HandIds(hand);
    DropHand(hand, a);
  }

  lemma JobInvStep(cfg: Config, s: State, act: Action)
    requires QueueInv(cfg, s) && JobInv(s) && Enabled(cfg, s, act)
    ensures JobInv(Apply(cfg, s, act))
  {
    if ActorOf(act).Some? {
      assert ActorOk(cfg, s, act.a);
    }
    match act
    case Call(a, e) => AccountCall(s.hand, s.queue, s.table, s.failed, s.recorded, a, e);
    case TrySend(a) => AccountSend(s.hand, s.queue, s.table, s.failed, s.recorded, a);
    case Receive(a) => AccountReceive(s.hand, s.queue, s.table, s.failed, s.recorded, a);
    case Commit(a) => AccountCommit(s.hand, s.queue, s.table, s.failed, s.recorded, a, Stored(cfg, PhaseOf(s, a).row));
    case Abort(a) => AccountAbort(s.hand, s.queue, s.table, s.failed, s.recorded, a);
    case _ =>
  }
}
