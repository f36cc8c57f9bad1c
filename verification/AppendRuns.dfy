/**
 Runs of the append protocol: what verifying finds after any of them, and the explicit runs
 behind the exact conditions.
 */
module AppendRuns {
  import opened Wrappers
  import opened DecisionRecord
  import opened DecisionChain
  import opened TamperEvidence
  import opened AppendProtocol
  import opened AppendInvariants
  import opened AppendChains

  // ----------------------------------------------------------- keys over runs

  /** Every signer of the deployment has an id, and the table holds the right key wherever it holds the id. */
  ghost predicate KeysAgree(cfg: Config, keys: map<string, string>) {
    forall a: ActorId :: cfg.signer(a).Some? ==>
      && cfg.signer(a).value.keyId != ""
      && (cfg.signer(a).value.keyId in keys ==> keys[cfg.signer(a).value.keyId] == cfg.c.publicKey(cfg.signer(a).value.key))
  }

  /** Every actor signs, with a key the table holds. */
  ghost predicate KeysKnown(cfg: Config, keys: map<string, string>) {
    KeysAgree(cfg, keys) && forall a: ActorId :: cfg.signer(a).Some? && cfg.signer(a).value.keyId in keys
  }

  lemma SealedByKnownKeys(cfg: Config, keys: map<string, string>, r: DecisionEntry)
    requires KeysKnown(cfg, keys) && SealedBySome(cfg, r)
    ensures SignedByKnown(cfg.c, keys, r)
  {
    var a: ActorId :| SealedByActor(cfg, r, a);
    assert KnownSeal(cfg.c, keys, r, cfg.signer(a).value);
  }

  /**
   The exact worth of authorship_proven after any run, at any moment of it: of the lists
   made without collision or forgery, only prefixes of the committed chain are accepted
   if and only if every record sealed for that chain has been committed.
   */
  lemma RunOnlyPrefixesIffNothingRolledBack(cfg: Config, acts: seq<Action>, s: State, keys: map<string, string>, org: string, chain: string)
    requires SharesLocks(cfg) && Run(cfg, acts) == Some(s) && CanonicalRecords(cfg, s.sealedRecords)
    requires HashesRecords(cfg.c) && SignsCorrectly(cfg.c) && KeysKnown(cfg, keys)
    requires CleanRecords(s.sealedRecords) && Collisionless(cfg.c, [], s.sealedRecords)
    ensures var rows := Rows(s.table, org, chain);
            OnlyPrefixesGoUnseen(cfg.c, keys, rows, s.sealedRecords, org, chain) <==> NothingRolledBack(rows, s.sealedRecords, org, chain)
  {
    RunKeepsInv(cfg, acts);
    assert ChainOk(cfg, s, org, chain);
    CanonicalHistory(cfg, s, org, chain);
    forall r | r in s.sealedRecords ensures SignedByKnown(cfg.c, keys, r) {
      assert SealedBySome(cfg, r);
      SealedByKnownKeys(cfg, keys, r);
    }
    OnlyPrefixesIffNothingRolledBack(cfg.c, keys, Rows(s.table, org, chain), s.sealedRecords, org, chain);
  }

  lemma Extend(cfg: Config, acts: seq<Action>, s: State, act: Action)
    requires Run(cfg, acts) == Some(s) && Enabled(cfg, s, act)
    ensures Run(cfg, acts + [act]) == Some(Apply(cfg, s, act))
  {
    assert (acts + [act])[..|acts|] == acts;
  }

  /** Nothing has been written or locked, and nobody but the named actor holds an entry. */
  predicate Untouched(s: State, a: ActorId) {
    s.table == [] && s.sealedRecords == {} && s.locks == map[] && s.queue == [] && s.hand.Keys == {a}
  }

  /** A caller that skips the queue, up to the point where it needs the lock. */
  lemma ReachDirectly(cfg: Config, a: ActorId, e: DecisionEntry) returns (acts: seq<Action>, s: State)
    requires a !in cfg.workers && (!cfg.async || a in cfg.others) && e.body.orgId != ""
    ensures Run(cfg, acts) == Some(s) && Untouched(s, a) && PhaseOf(s, a).NeedsLock? && s.hand[a].entry == e && s.phases.Keys == {a}
  {
    acts, s := [], INIT;
    Extend(cfg, acts, s, Call(a, e));
    acts, s := acts + [Call(a, e)], Apply(cfg, s, Call(a, e));
    Extend(cfg, acts, s, SkipQueue(a));
    acts, s := acts + [SkipQueue(a)], Apply(cfg, s, SkipQueue(a));
  }

  lemma EnterQueueLock(cfg: Config, a: ActorId, e: DecisionEntry) returns (acts: seq<Action>, s: State)
    requires a !in cfg.workers && cfg.async && a !in cfg.others && e.body.orgId != ""
    ensures Run(cfg, acts) == Some(s) && PhaseOf(s, a).SeesOpen? && s == INIT.(phases := s.phases, hand := s.hand, calls := s.calls, recorded := 1)
    ensures s.hand == map[a := Job(0, e)] && s.phases.Keys == {a}
  {
    acts, s := [], INIT;
    Extend(cfg, acts, s, Call(a, e));
    acts, s := acts + [Call(a, e)], Apply(cfg, s, Call(a, e));
    Extend(cfg, acts, s, ReadLock(a));
    acts, s := acts + [ReadLock(a)], Apply(cfg, s, ReadLock(a));
    Extend(cfg, acts, s, LoadClosed(a));
    acts, s := acts + [LoadClosed(a)], Apply(cfg, s, LoadClosed(a));
  }

  /** A caller whose entry goes through the queue to a worker. */
  lemma ReachThroughWorker(cfg: Config, a: ActorId, e: DecisionEntry, w: ActorId) returns (acts: seq<Action>, s: State)
    requires a !in cfg.workers && cfg.async && a !in cfg.others && e.body.orgId != "" && w in cfg.workers && cfg.capacity > 0
    ensures Run(cfg, acts) == Some(s) && Untouched(s, w) && PhaseOf(s, w).NeedsLock? && s.hand[w].entry == e
  {
    acts, s := EnterQueueLock(cfg, a, e);
    Extend(cfg, acts, s, TrySend(a));
    acts, s := acts + [TrySend(a)], Apply(cfg, s, TrySend(a));
    Extend(cfg, acts, s, ReadUnlock(a));
    acts, s := acts + [ReadUnlock(a)], Apply(cfg, s, ReadUnlock(a));
    Extend(cfg, acts, s, Receive(w));
    acts, s := acts + [Receive(w)], Apply(cfg, s, Receive(w));
  }

  /** Without workers, or without room: a caller that finds the queue closed writes itself. */
  lemma ReachAfterShutdown(cfg: Config, a: ActorId, e: DecisionEntry) returns (acts: seq<Action>, s: State)
    requires a !in cfg.workers && cfg.async && a !in cfg.others && e.body.orgId != ""
    ensures Run(cfg, acts) == Some(s) && Untouched(s, a) && PhaseOf(s, a).NeedsLock? && s.hand[a].entry == e
  {
    acts, s := CloseQueue(cfg);
    Extend(cfg, acts, s, Call(a, e));
    acts, s := acts + [Call(a, e)], Apply(cfg, s, Call(a, e));
    Extend(cfg, acts, s, ReadLock(a));
    acts, s := acts + [ReadLock(a)], Apply(cfg, s, ReadLock(a));
    Extend(cfg, acts, s, LoadClosed(a));
    acts, s := acts + [LoadClosed(a)], Apply(cfg, s, LoadClosed(a));
    Extend(cfg, acts, s, ReadUnlock(a));
    acts, s := acts + [ReadUnlock(a)], Apply(cfg, s, ReadUnlock(a));
  }

  lemma CloseQueue(cfg: Config) returns (acts: seq<Action>, s: State)
    requires cfg.async
    ensures Run(cfg, acts) == Some(s) && s == INIT.(shutdown := Waiting, closed := true, channelClosed := true)
  {
    acts, s := [], INIT;
    Extend(cfg, acts, s, LockQueue);
    acts, s := acts + [LockQueue], Apply(cfg, s, LockQueue);
    Extend(cfg, acts, s, SetClosed);
    acts, s := acts + [SetClosed], Apply(cfg, s, SetClosed);
    Extend(cfg, acts, s, CloseChannel);
    acts, s := acts + [CloseChannel], Apply(cfg, s, CloseChannel);
    Extend(cfg, acts, s, UnlockQueue);
    acts, s := acts + [UnlockQueue], Apply(cfg, s, UnlockQueue);
  }

  /** Whatever the deployment, a first call comes to hold the advisory lock: its caller, or a worker for it. */
  lemma LockOnEmptyTable(cfg: Config, a: ActorId, e: DecisionEntry) returns (acts: seq<Action>, s: State, b: ActorId)
    requires a !in cfg.workers && e.body.orgId != ""
    ensures Run(cfg, acts) == Some(s) && PhaseOf(s, b).HasLock? && s.table == [] && s.sealedRecords == {}
    ensures b in s.hand && s.hand[b].entry == e
  {
    b := a;
    if !cfg.async || a in cfg.others {
      acts, s := ReachDirectly(cfg, a, e);
    } else if cfg.capacity > 0 && cfg.workers != {} {
      b :| b in cfg.workers;
      acts, s := ReachThroughWorker(cfg, a, e, b);
    } else {
      acts, s := ReachAfterShutdown(cfg, a, e);
    }
    Extend(cfg, acts, s, TakeLock(b));
    acts, s := acts + [TakeLock(b)], Apply(cfg, s, TakeLock(b));
  }

  // ------------------------------------------------------- spellings of an id

  /** A second caller comes to need its lock while the first one waits for its own. */
  lemma SecondNeedsLock(cfg: Config, before: seq<Action>, s0: State, a: ActorId, b: ActorId, e: DecisionEntry) returns (acts: seq<Action>, s: State)
    requires Run(cfg, before) == Some(s0) && Untouched(s0, a) && PhaseOf(s0, a).NeedsLock?
    requires b !in cfg.workers && a != b && PhaseOf(s0, b).Idle? && e.body.orgId != ""
    requires !cfg.async || b in cfg.others || (s0.closed && s0.shutdown.Waiting?)
    ensures Run(cfg, acts) == Some(s) && BothNeedLock(s, a, b) && s.hand[a] == s0.hand[a] && s.hand[b].entry == e
  {
    acts, s := before, s0;
    Extend(cfg, acts, s, Call(b, e));
    acts, s := acts + [Call(b, e)], Apply(cfg, s, Call(b, e));
    if !cfg.async || b in cfg.others {
      Extend(cfg, acts, s, SkipQueue(b));
      acts, s := acts + [SkipQueue(b)], Apply(cfg, s, SkipQueue(b));
    } else {
      Extend(cfg, acts, s, ReadLock(b));
      acts, s := acts + [ReadLock(b)], Apply(cfg, s, ReadLock(b));
      Extend(cfg, acts, s, LoadClosed(b));
      acts, s := acts + [LoadClosed(b)], Apply(cfg, s, LoadClosed(b));
      Extend(cfg, acts, s, ReadUnlock(b));
      acts, s := acts + [ReadUnlock(b)], Apply(cfg, s, ReadUnlock(b));
    }
  }

  predicate BothNeedLock(s: State, a: ActorId, b: ActorId) {
    && s.table == [] && s.locks == map[] && a in s.hand && b in s.hand
    && PhaseOf(s, a).NeedsLock? && PhaseOf(s, b).NeedsLock?
  }

  /** Two callers at the point where each needs its lock, in any deployment. */
  lemma TwoNeedLocks(cfg: Config, a: ActorId, b: ActorId, e: DecisionEntry, f: DecisionEntry) returns (acts: seq<Action>, s: State)
    requires a !in cfg.workers && b !in cfg.workers && a != b && e.body.orgId != "" && f.body.orgId != ""
    ensures Run(cfg, acts) == Some(s) && BothNeedLock(s, a, b) && s.hand[a].entry == e && s.hand[b].entry == f
  {
    if !cfg.async {
      acts, s := ReachDirectly(cfg, a, e);
      acts, s := SecondNeedsLock(cfg, acts, s, a, b, f);
    } else {
      acts, s := FirstNeedsLock(cfg, a, e);
      acts, s := SecondNeedsLock(cfg, acts, s, a, b, f);
    }
  }

  /** With the queue closed a first caller comes to need its lock. */
  lemma FirstNeedsLock(cfg: Config, a: ActorId, e: DecisionEntry) returns (acts: seq<Action>, s: State)
    requires a !in cfg.workers && cfg.async && e.body.orgId != ""
    ensures Run(cfg, acts) == Some(s) && Untouched(s, a) && PhaseOf(s, a).NeedsLock? && s.hand[a].entry == e
    ensures s.closed && s.shutdown.Waiting? && s.phases.Keys == {a}
  {
    acts, s := CloseQueue(cfg);
    Extend(cfg, acts, s, Call(a, e));
    acts, s := acts + [Call(a, e)], Apply(cfg, s, Call(a, e));
    if a in cfg.others {
      Extend(cfg, acts, s, SkipQueue(a));
      acts, s := acts + [SkipQueue(a)], Apply(cfg, s, SkipQueue(a));
    } else {
      Extend(cfg, acts, s, ReadLock(a));
      acts, s := acts + [ReadLock(a)], Apply(cfg, s, ReadLock(a));
      Extend(cfg, acts, s, LoadClosed(a));
      acts, s := acts + [LoadClosed(a)], Apply(cfg, s, LoadClosed(a));
      Extend(cfg, acts, s, ReadUnlock(a));
      acts, s := acts + [ReadUnlock(a)], Apply(cfg, s, ReadUnlock(a));
    }
  }

  /** Under different locks both read an empty chain and seal a first record for it. */
  lemma BothSeal(cfg: Config, before: seq<Action>, s0: State, a: ActorId, b: ActorId) returns (acts: seq<Action>, s: State)
    requires Run(cfg, before) == Some(s0) && BothNeedLock(s0, a, b) && a != b
    requires Key(cfg, s0.hand[a].entry) != Key(cfg, s0.hand[b].entry)
    ensures Run(cfg, acts) == Some(s) && s.table == [] && a in s.hand && b in s.hand
    ensures PhaseOf(s, a) == Sealed(SealFromTail(cfg.c, cfg.signer(a), s0.hand[a].entry, None))
    ensures PhaseOf(s, b) == Sealed(SealFromTail(cfg.c, cfg.signer(b), s0.hand[b].entry, None))
  {
    acts, s := before, s0;
    Extend(cfg, acts, s, TakeLock(a));
    acts, s := acts + [TakeLock(a)], Apply(cfg, s, TakeLock(a));
    Extend(cfg, acts, s, TakeLock(b));
    acts, s := acts + [TakeLock(b)], Apply(cfg, s, TakeLock(b));
    Extend(cfg, acts, s, SealRow(a, None));
    acts, s := acts + [SealRow(a, None)], Apply(cfg, s, SealRow(a, None));
    Extend(cfg, acts, s, SealRow(b, None));
    acts, s := acts + [SealRow(b, None)], Apply(cfg, s, SealRow(b, None));
  }

  lemma BothCommit(cfg: Config, before: seq<Action>, s0: State, a: ActorId, b: ActorId) returns (acts: seq<Action>, s: State)
    requires Run(cfg, before) == Some(s0) && s0.table == [] && a in s0.hand && b in s0.hand && a != b
    requires PhaseOf(s0, a).Sealed? && PhaseOf(s0, b).Sealed?
    ensures Run(cfg, acts) == Some(s)
    ensures s.table == [Row(s0.hand[a].id, Stored(cfg, PhaseOf(s0, a).row)), Row(s0.hand[b].id, Stored(cfg, PhaseOf(s0, b).row))]
  {
    acts, s := before, s0;
    Extend(cfg, acts, s, Commit(a));
    acts, s := acts + [Commit(a)], Apply(cfg, s, Commit(a));
    Extend(cfg, acts, s, Commit(b));
    acts, s := acts + [Commit(b)], Apply(cfg, s, Commit(b));
  }

  /** Two spellings of one chain id with different locks, two calls that use them: the chain forks at its first record. */
  lemma SpellingsFork(cfg: Config, a: ActorId, b: ActorId, e: DecisionEntry, f: DecisionEntry) returns (acts: seq<Action>, s: State)
    requires a !in cfg.workers && b !in cfg.workers && a != b
    requires e.body.orgId == f.body.orgId != "" && cfg.canonical(e.body.chainId) == cfg.canonical(f.body.chainId)
    requires Key(cfg, e) != Key(cfg, f)
    ensures Run(cfg, acts) == Some(s) && !Linear(cfg.c, Rows(s.table, e.body.orgId, cfg.canonical(e.body.chainId)))
  {
    acts, s := TwoNeedLocks(cfg, a, b, e, f);
    acts, s := BothSeal(cfg, acts, s, a, b);
    var first, second := Stored(cfg, PhaseOf(s, a).row), Stored(cfg, PhaseOf(s, b).row);
    var i, j := s.hand[a].id, s.hand[b].id;
    acts, s := BothCommit(cfg, acts, s, a, b);
    var org, chain := e.body.orgId, cfg.canonical(e.body.chainId);
    assert s.table == [] + [Row(i, first)] + [Row(j, second)];
    RowsAppend([], Row(i, first), org, chain);
    RowsAppend([] + [Row(i, first)], Row(j, second), org, chain);
    assert Rows(s.table, org, chain) == [first, second];
    assert [first, second][1].chainSeq == 1;
  }

  ghost predicate LinearAfter(cfg: Config, acts: seq<Action>, org: string, chain: string) {
    Run(cfg, acts).Some? ==> Linear(cfg.c, Rows(Run(cfg, acts).value.table, org, chain))
  }

  /** No run of the deployment forks any chain. */
  ghost predicate NeverForks(cfg: Config) {
    forall acts, org, chain {:trigger LinearAfter(cfg, acts, org, chain)} :: LinearAfter(cfg, acts, org, chain)
  }

  /** The exact condition: chains never fork if and only if the spellings of a chain id share its lock. */
  lemma NeverForksIffSpellingsShareLocks(cfg: Config, a: ActorId, b: ActorId, e: DecisionEntry)
    requires a !in cfg.workers && b !in cfg.workers && a != b
    ensures NeverForks(cfg) <==> SharesLocks(cfg)
  {
    if SharesLocks(cfg) {
      forall acts, org, chain ensures LinearAfter(cfg, acts, org, chain) {
        if Run(cfg, acts).Some? {
          NoForks(cfg, acts, org, chain);
        }
      }
    } else {
      var org, x, y :| org != "" && cfg.canonical(x) == cfg.canonical(y) && cfg.lockKey(org, x) != cfg.lockKey(org, y);
      var acts, s := SpellingsFork(cfg, a, b, e.(body := e.body.(orgId := org, chainId := x)), e.(body := e.body.(orgId := org, chainId := y)));
      assert !LinearAfter(cfg, acts, org, cfg.canonical(x));
    }
  }

  /**
   In any deployment whose writers sign with known keys a first append, its caller's or a
   worker's, can roll back after signing, and leaves a signed record that is accepted as
   the whole chain although nothing was committed.
   */
  lemma RollbackLeavesAcceptedRecord(cfg: Config, keys: map<string, string>, a: ActorId, e: DecisionEntry)
    returns (acts: seq<Action>, s: State, row: DecisionEntry)
    requires a !in cfg.workers && e.body.orgId != "" && SignsCorrectly(cfg.c) && KeysKnown(cfg, keys)
    ensures Run(cfg, acts) == Some(s) && s.table == [] && row in s.sealedRecords && Belongs(row, e.body.orgId, e.body.chainId)
    ensures !NothingRolledBack(Rows(s.table, e.body.orgId, e.body.chainId), s.sealedRecords, e.body.orgId, e.body.chainId)
    ensures AuthorshipProven(cfg.c, keys, [row])
  {
    var b;
    acts, s, b := LockOnEmptyTable(cfg, a, e);
    row := SealFromTail(cfg.c, cfg.signer(b), e, None);
    SealedFromTail(cfg, [], e, None, b);
    Extend(cfg, acts, s, SealRow(b, None));
    acts, s := acts + [SealRow(b, None)], Apply(cfg, s, SealRow(b, None));
    Extend(cfg, acts, s, Abort(b));
    acts, s := acts + [Abort(b)], Apply(cfg, s, Abort(b));
    FirstRecordIsAccepted(cfg.c, keys, row, cfg.signer(b).value);
    assert !IsCommitted(Rows(s.table, e.body.orgId, e.body.chainId), row);
  }

  lemma FirstRecordIsAccepted(c: Crypto, keys: map<string, string>, row: DecisionEntry, signer: Signer)
    requires SignsCorrectly(c) && KnownSeal(c, keys, row, signer) && row.prevHash == c.genesis
    ensures AuthorshipProven(c, keys, [row])
  {
    SealVerifies(c, signer, keys, row);
    assert RecordOk(c, keys, [row], 0);
  }

  /**
   An entry with an unclean list, recorded as the first of its chain, can be read back as
   a different record that is accepted in its place.
   */
  lemma RecordedUncleanCanBeAltered(cfg: Config, keys: map<string, string>, a: ActorId, e: DecisionEntry)
    returns (acts: seq<Action>, s: State, altered: seq<DecisionEntry>)
    requires a !in cfg.workers && e.body.orgId != "" && Stored(cfg, e) == e && !CleanLists(e.body)
    requires HashesPreimages(cfg.c) && SignsCorrectly(cfg.c) && KeysKnown(cfg, keys)
    ensures Run(cfg, acts) == Some(s) && |Rows(s.table, e.body.orgId, e.body.chainId)| == |altered| == 1
    ensures Rows(s.table, e.body.orgId, e.body.chainId)[0].body == e.body != altered[0].body && AuthorshipProven(cfg.c, keys, altered)
  {
    var b;
    acts, s, b := LockOnEmptyTable(cfg, a, e);
    var row := SealFromTail(cfg.c, cfg.signer(b), e, None);
    SealedFromTail(cfg, [], e, None, b);
    Extend(cfg, acts, s, SealRow(b, None));
    acts, s := acts + [SealRow(b, None)], Apply(cfg, s, SealRow(b, None));
    Extend(cfg, acts, s, Commit(b));
    var job := s.hand[b].id;
    acts, s := acts + [Commit(b)], Apply(cfg, s, Commit(b));
    assert Stored(cfg, row) == row;
    assert s.table == [] + [Row(job, row)];
    RowsAppend([], Row(job, row), e.body.orgId, e.body.chainId);
    FirstRecordIsAccepted(cfg.c, keys, row, cfg.signer(b).value);
    altered := UncleanRecordCanBeAltered(cfg.c, keys, [row], 0);
  }

  /**
   Recording then verifying, over the database. After any run, under any key table that
   is right where it speaks, a committed row checks exactly when its writer has no key or
   a retained one, and authorship is proven exactly when all writers' keys are retained.
   */
  lemma RunRecordsVerify(cfg: Config, acts: seq<Action>, s: State, keys: map<string, string>, org: string, chain: string)
    returns (writers: seq<ActorId>)
    requires SharesLocks(cfg) && Run(cfg, acts) == Some(s) && CanonicalRecords(cfg, s.sealedRecords)
    requires SignsCorrectly(cfg.c) && KeysAgree(cfg, keys)
    ensures var rows := Rows(s.table, org, chain);
            && |writers| == |rows|
            && (forall i | 0 <= i < |rows| :: SealedByActor(cfg, rows[i], writers[i]))
            && (forall i | 0 <= i < |rows| :: RecordOk(cfg.c, keys, rows, i) <==> cfg.signer(writers[i]).None? || Retained(cfg, keys, writers[i]))
            && (AuthorshipProven(cfg.c, keys, rows) <==> rows != [] && forall i | 0 <= i < |rows| :: Retained(cfg, keys, writers[i]))
            && (KeysKnown(cfg, keys) && rows != [] ==> AuthorshipProven(cfg.c, keys, rows))
  {
    RunKeepsInv(cfg, acts);
    assert ChainOk(cfg, s, org, chain);
    CanonicalHistory(cfg, s, org, chain);
    var rows := Rows(s.table, org, chain);
    forall i | 0 <= i < |rows| ensures SealedBySome(cfg, rows[i]) {
      assert rows[i] in s.sealedRecords;
    }
    writers := WritersOf(cfg, rows);
    forall i | 0 <= i < |rows|
      ensures RecordOk(cfg.c, keys, rows, i) <==> cfg.signer(writers[i]).None? || Retained(cfg, keys, writers[i])
      ensures Signed(rows[i]) <==> cfg.signer(writers[i]).Some?
    {
      WrittenRecordChecks(cfg, keys, rows, writers, i);
    }
  }

  /** With ids that are always canonical, which is what the program generates, both conditions on spelling hold. */
  lemma CanonicalIdsAreSafe(cfg: Config, records: set<DecisionEntry>)
    requires forall x :: cfg.canonical(x) == x
    ensures SharesLocks(cfg) && CanonicalRecords(cfg, records)
  {}

  /** A signed row that reads back unlike every record that was sealed does not check: what was signed was another text. */
  lemma RespelledRowFails(c: Crypto, keys: map<string, string>, records: set<DecisionEntry>, row: DecisionEntry)
    requires HashesRecords(c) && CleanRecords(records) && Signed(row)
    requires Collisionless(c, [row], records) && Unforged(c, keys, [row], records)
    requires forall r | r in records :: !SameRecord(r, row)
    ensures !SignatureOk(c, keys, row)
  {
    if SignatureOk(c, keys, row) {
      assert [row][0] == row;
      var r :| r in records && ChainHashOf(c, r) == ChainHashOf(c, row);
      assert NoCollision(c, r, row);
      ChainHashCommits(c, r, row);
    }
  }

  predicate Retained(cfg: Config, keys: map<string, string>, a: ActorId) {
    cfg.signer(a).Some? && cfg.signer(a).value.keyId in keys
  }

  lemma WritersOf(cfg: Config, rows: seq<DecisionEntry>) returns (writers: seq<ActorId>)
    requires forall i | 0 <= i < |rows| :: SealedBySome(cfg, rows[i])
    ensures |writers| == |rows| && forall i | 0 <= i < |rows| :: SealedByActor(cfg, rows[i], writers[i])
  {
    writers := [];
    while |writers| < |rows|
      invariant |writers| <= |rows| && forall i | 0 <= i < |writers| :: SealedByActor(cfg, rows[i], writers[i])
    {
      var a: ActorId :| SealedByActor(cfg, rows[|writers|], a);
      writers := writers + [a];
    }
  }

  lemma WrittenRecordChecks(cfg: Config, keys: map<string, string>, rows: seq<DecisionEntry>, writers: seq<ActorId>, i: nat)
    requires SignsCorrectly(cfg.c) && KeysAgree(cfg, keys) && Linear(cfg.c, rows)
    requires |writers| == |rows| && (forall j | 0 <= j < |rows| :: SealedByActor(cfg, rows[j], writers[j])) && i < |rows|
    ensures RecordOk(cfg.c, keys, rows, i) <==> cfg.signer(writers[i]).None? || Retained(cfg, keys, writers[i])
    ensures Signed(rows[i]) <==> cfg.signer(writers[i]).Some?
  {
    var signers := seq(|rows|, j requires 0 <= j < |rows| => cfg.signer(writers[j]));
    assert forall j | 0 <= j < |rows| :: signers[j] == cfg.signer(writers[j]) && SealedByActor(cfg, rows[j], writers[j]);
    RotatedChainBreaksAtDroppedKey(cfg.c, keys, signers, rows, i);
  }
}
