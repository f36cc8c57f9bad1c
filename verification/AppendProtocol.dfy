/**
 The tracker in database mode as a state machine: callers of RecordDecision, the
 bounded queue with its lock, the workers, transactional appends under the
 per-chain advisory lock, and Shutdown. Each action is one step that the program
 takes without another goroutine or session seeing a state in between.
 */
module AppendProtocol {
  import opened Wrappers
  import opened DecisionRecord
  import opened DecisionChain
  import opened TamperEvidence

  type ActorId = nat

  /** A counted call; id is the value of decisions_recorded when it was counted. */
  datatype Job = Job(id: nat, entry: DecisionEntry)

  datatype Phase =
    | Idle                             // a worker at the channel, or a caller between calls
    | Exited                           // a worker that has returned
    | Counted                          // RecordDecision has counted the call
    | HoldsRead                        // holds the queue lock for reading
    | SeesOpen                         // and has read closed == false
    | Declined                         // and must write itself: queue full or closed
    | Sent                             // and its entry is in the queue
    | NeedsLock                        // in recordToDB, waiting for the advisory lock
    | HasLock                          // holds the advisory lock
    | Sealed(row: DecisionEntry)       // has read the tail and sealed the row

  datatype ShutdownPhase = Running | Locked | FlagSet | ChannelClosed | Waiting | Complete | TimedOut

  /**
   lockKey stands for the pair of hashtext values of the texts: different chains may share
   one. The id columns are UUIDs: canonical gives the text in which the database returns one.
   Each actor seals under the key of its own process, if that has one. others are the
   writers of further replicas on the same database: their queues are their own, so
   here they come straight to the append.
   */
  datatype Config = Config(
    c: Crypto,
    signer: ActorId -> Option<Signer>,
    lockKey: (string, string) -> int,
    canonical: string -> string,
    idLess: (string, string) -> bool,
    capacity: nat,
    async: bool,
    workers: set<ActorId>,
    others: set<ActorId>)

  datatype Row = Row(job: nat, entry: DecisionEntry)

  datatype State = State(
    phases: map<ActorId, Phase>,
    hand: map<ActorId, Job>,
    queue: seq<Job>,
    closed: bool,
    channelClosed: bool,
    panicked: bool,
    shutdown: ShutdownPhase,
    table: seq<Row>,
    locks: map<int, ActorId>,
    sealedRecords: set<DecisionEntry>,
    failed: set<nat>,
    calls: seq<DecisionEntry>,         // the entry of every counted call, by id
    sent: seq<Job>,                    // every job put on the channel, and
    received: seq<Job>,                // every job taken from it, in order
    recorded: nat,
    rejected: nat,
    recordErrors: nat)

  const INIT: State :=
    State(map[], map[], [], false, false, false, Running, [], map[], {}, {}, [], [], [], 0, 0, 0)

  function PhaseOf(s: State, a: ActorId): Phase {
    if a in s.phases then s.phases[a] else Idle
  }

  predicate HoldsQueueLock(p: Phase) {
    p.HoldsRead? || p.SeesOpen? || p.Declined? || p.Sent?
  }

  predicate InTransaction(p: Phase) {
    p.HasLock? || p.Sealed?
  }

  /** The actor has an entry that is neither queued nor written. */
  predicate Busy(p: Phase) {
    !p.Idle? && !p.Exited? && !p.Sent?
  }

  function Key(cfg: Config, e: DecisionEntry): int {
    cfg.lockKey(e.body.orgId, e.body.chainId)
  }

  /** The entry as it is read back from the table. */
  function Stored(cfg: Config, e: DecisionEntry): DecisionEntry {
    e.(body := e.body.(id := cfg.canonical(e.body.id), chainId := cfg.canonical(e.body.chainId),
                       requestId := cfg.canonical(e.body.requestId), parentRequestId := cfg.canonical(e.body.parentRequestId)))
  }

  // ---------------------------------------------------------------- queries

  /** The rows visible to an org for a chain, in the order in which they were committed. */
  function Rows(table: seq<Row>, org: string, chain: string): seq<DecisionEntry> {
    if table == [] then []
    else
      var last := table[|table| - 1].entry;
      Rows(table[..|table| - 1], org, chain) + (if Belongs(last, org, chain) then [last] else [])
  }

  /** The rows of the chain that an entry belongs to, whatever the spelling of its chain id. */
  function ChainRows(cfg: Config, s: State, e: DecisionEntry): seq<DecisionEntry> {
    Rows(s.table, e.body.orgId, cfg.canonical(e.body.chainId))
  }

  /** a comes after b in ORDER BY chain_seq, created_at, id. */
  predicate After(cfg: Config, a: DecisionEntry, b: DecisionEntry) {
    || a.chainSeq > b.chainSeq
    || (a.chainSeq == b.chainSeq && a.body.createdAtMicros > b.body.createdAtMicros)
    || (a.chainSeq == b.chainSeq && a.body.createdAtMicros == b.body.createdAtMicros && cfg.idLess(b.body.id, a.body.id))
  }

  /** A possible result of fetchChainTailTx: the first row of the descending order. */
  predicate IsTail(cfg: Config, rows: seq<DecisionEntry>, tail: Option<DecisionEntry>) {
    match tail
    case None => rows == []
    case Some(t) => t in rows && forall r | r in rows :: !After(cfg, r, t)
  }

  /** A possible result of fetchChainEntriesOrgScoped: every row once, in ascending order. */
  predicate IsListing(cfg: Config, rows: seq<DecisionEntry>, listing: seq<DecisionEntry>) {
    && |listing| == |rows|
    && (forall i | 0 <= i < |listing| :: listing[i] in rows)
    && (forall i, j | 0 <= i < j < |listing| :: listing[i] != listing[j] && !After(cfg, listing[i], listing[j]))
  }

  // ---------------------------------------------------------------- actions

  datatype Action =
    | Reject(a: ActorId)
    | Call(a: ActorId, entry: DecisionEntry)
    | SkipQueue(a: ActorId)
    | ReadLock(a: ActorId)
    | LoadClosed(a: ActorId)
    | TrySend(a: ActorId)
    | ReadUnlock(a: ActorId)
    | Receive(a: ActorId)
    | Exit(a: ActorId)
    | TakeLock(a: ActorId)
    | SealRow(a: ActorId, tail: Option<DecisionEntry>)
    | Commit(a: ActorId)
    | Abort(a: ActorId)
    | LockQueue
    | SetClosed
    | CloseChannel
    | UnlockQueue
    | FinishShutdown
    | TimeOut

  ghost predicate Enabled(cfg: Config, s: State, act: Action) {
    match act
    case Reject(a) => a !in cfg.workers && PhaseOf(s, a).Idle?
    case Call(a, e) => a !in cfg.workers && PhaseOf(s, a).Idle? && e.body.orgId != ""
    case SkipQueue(a) => PhaseOf(s, a).Counted? && (!cfg.async || a in cfg.others)
    case ReadLock(a) => PhaseOf(s, a).Counted? && cfg.async && a !in cfg.others
                        && !s.shutdown.Locked? && !s.shutdown.FlagSet? && !s.shutdown.ChannelClosed?
    case LoadClosed(a) => PhaseOf(s, a).HoldsRead?
    case TrySend(a) => PhaseOf(s, a).SeesOpen? && a in s.hand
    case ReadUnlock(a) => PhaseOf(s, a).Sent? || PhaseOf(s, a).Declined?
    case Receive(a) => a in cfg.workers && PhaseOf(s, a).Idle? && s.queue != []
    case Exit(a) => a in cfg.workers && PhaseOf(s, a).Idle? && s.queue == [] && s.channelClosed
    case TakeLock(a) => PhaseOf(s, a).NeedsLock? && a in s.hand && Key(cfg, s.hand[a].entry) !in s.locks
    case SealRow(a, tail) =>
      PhaseOf(s, a).HasLock? && a in s.hand && IsTail(cfg, ChainRows(cfg, s, s.hand[a].entry), tail)
    case Commit(a) => PhaseOf(s, a).Sealed? && a in s.hand
    case Abort(a) => (PhaseOf(s, a).NeedsLock? || InTransaction(PhaseOf(s, a))) && a in s.hand
    case LockQueue => cfg.async && s.shutdown.Running? && forall a | a in s.phases :: !HoldsQueueLock(s.phases[a])
    case SetClosed => s.shutdown.Locked?
    case CloseChannel => s.shutdown.FlagSet?
    case UnlockQueue => s.shutdown.ChannelClosed?
    case FinishShutdown => s.shutdown.Waiting? && forall w | w in cfg.workers :: PhaseOf(s, w).Exited?
    case TimeOut => s.shutdown.Waiting?
  }

  function Move(s: State, a: ActorId, p: Phase): State {
    s.(phases := s.phases[a := p])
  }

  /** The actor's transaction ends, its lock is released and it no longer holds the entry. */
  function EndTransaction(cfg: Config, s: State, a: ActorId): State
    requires a in s.hand
  {
    var locks := if InTransaction(PhaseOf(s, a)) then s.locks - {Key(cfg, s.hand[a].entry)} else s.locks;
    Move(s, a, Idle).(hand := s.hand - {a}, locks := locks)
  }

  function SealFromTail(c: Crypto, signer: Option<Signer>, e: DecisionEntry, tail: Option<DecisionEntry>): DecisionEntry {
    match tail
    case None => Seal(c, signer, e, c.genesis, 1)
    case Some(t) => Seal(c, signer, e, ChainHashOf(c, t), t.chainSeq + 1)
  }

  ghost function Apply(cfg: Config, s: State, act: Action): State
    requires Enabled(cfg, s, act)
  {
    match act
    case Reject(a) => s.(rejected := s.rejected + 1, recordErrors := s.recordErrors + 1)
    case Call(a, e) =>
      Move(s, a, Counted).(hand := s.hand[a := Job(s.recorded, e)], calls := s.calls + [e], recorded := s.recorded + 1)
    case SkipQueue(a) => Move(s, a, NeedsLock)
    case ReadLock(a) => Move(s, a, HoldsRead)
    case LoadClosed(a) => Move(s, a, if s.closed then Declined else SeesOpen)
    case TrySend(a) =>
      if s.channelClosed then s.(panicked := true)
      else if |s.queue| < cfg.capacity then Move(s, a, Sent).(queue := s.queue + [s.hand[a]], sent := s.sent + [s.hand[a]], hand := s.hand - {a})
      else Move(s, a, Declined)
    case ReadUnlock(a) => Move(s, a, if PhaseOf(s, a).Sent? then Idle else NeedsLock)
    case Receive(a) => Move(s, a, NeedsLock).(hand := s.hand[a := s.queue[0]], received := s.received + [s.queue[0]], queue := s.queue[1..])
    case Exit(a) => Move(s, a, Exited)
    case TakeLock(a) => Move(s, a, HasLock).(locks := s.locks[Key(cfg, s.hand[a].entry) := a])
    case SealRow(a, tail) =>
      var row := SealFromTail(cfg.c, cfg.signer(a), s.hand[a].entry, tail);
      Move(s, a, Sealed(row)).(sealedRecords := s.sealedRecords + {row})
    case Commit(a) =>
      EndTransaction(cfg, s, a).(table := s.table + [Row(s.hand[a].id, Stored(cfg, PhaseOf(s, a).row))])
    case Abort(a) =>
      EndTransaction(cfg, s, a).(failed := s.failed + {s.hand[a].id}, recordErrors := s.recordErrors + 1)
    case LockQueue => s.(shutdown := Locked)
    case SetClosed => s.(shutdown := FlagSet, closed := true)
    case CloseChannel => s.(shutdown := ChannelClosed, channelClosed := true)
    case UnlockQueue => s.(shutdown := Waiting)
    case FinishShutdown => s.(shutdown := Complete)
    case TimeOut => s.(shutdown := TimedOut)
  }

  /** The state after a run from the start, if every action is enabled in its turn. */
  ghost function Run(cfg: Config, acts: seq<Action>): Option<State> {
    if acts == [] then Some(INIT)
    else
      match Run(cfg, acts[..|acts| - 1])
      case None => None
      case Some(s) =>
        if Enabled(cfg, s, acts[|acts| - 1]) then Some(Apply(cfg, s, acts[|acts| - 1])) else None
  }
}
