/** No run of the append protocol forks a chain. */
module AppendChains {
  import opened Wrappers
  import opened DecisionRecord
  import opened DecisionChain
  import opened TamperEvidence
  import opened AppendProtocol
  import opened AppendInvariants

  // ----------------------------------------------------------- advisory locks

  predicate HolderOk(cfg: Config, s: State, a: ActorId) {
    InTransaction(PhaseOf(s, a)) ==>
      a in s.hand && Key(cfg, s.hand[a].entry) in s.locks && s.locks[Key(cfg, s.hand[a].entry)] == a
  }

  predicate LockOk(cfg: Config, s: State, k: int) {
    k in s.locks ==>
      && InTransaction(PhaseOf(s, s.locks[k]))
      && s.locks[k] in s.hand && Key(cfg, s.hand[s.locks[k]].entry) == k
  }

  /** An advisory lock is held exactly by the one actor inside a transaction on its chain. */
  ghost predicate LockInv(cfg: Config, s: State) {
    && (forall a {:trigger HolderOk(cfg, s, a)} :: HolderOk(cfg, s, a))
    && (forall k {:trigger LockOk(cfg, s, k)} :: LockOk(cfg, s, k))
  }

  lemma WriterLocksFrame(cfg: Config, s: State, act: Action)
    requires Enabled(cfg, s, act) && WritesRow(act) && !act.TakeLock? && !act.Commit? && !act.Abort?
    ensures Apply(cfg, s, act).locks == s.locks
  {}

  lemma LocksFrame(cfg: Config, s: State, act: Action)
    requires Enabled(cfg, s, act) && !act.TakeLock? && !act.Commit? && !act.Abort?
    ensures Apply(cfg, s, act).locks == s.locks
  {
    if WritesRow(act) {
      WriterLocksFrame(cfg, s, act);
    }
  }

  lemma OtherHolderStep(cfg: Config, s: State, act: Action, b: ActorId)
    requires LockInv(cfg, s) && Enabled(cfg, s, act) && ActorOf(act) != Some(b)
    ensures HolderOk(cfg, Apply(cfg, s, act), b)
  {
    assert HolderOk(cfg, s, b);
    OthersKeepPhase(cfg, s, act, b);
    if act.Commit? || act.Abort? {
      assert HolderOk(cfg, s, act.a);
    } else if !act.TakeLock? {
      LocksFrame(cfg, s, act);
    }
  }

  lemma OwnHolderStep(cfg: Config, s: State, act: Action)
    requires LockInv(cfg, s) && Enabled(cfg, s, act) && ActorOf(act).Some?
    ensures HolderOk(cfg, Apply(cfg, s, act), act.a)
  {
    assert HolderOk(cfg, s, act.a);
  }

  /** The lock of an actor that does not move. */
  lemma OtherLockStep(cfg: Config, s: State, act: Action, k: int)
    requires LockOk(cfg, s, k) && Enabled(cfg, s, act)
    requires k in s.locks && ActorOf(act) != Some(s.locks[k])
    requires act.Commit? || act.Abort? ==> HolderOk(cfg, s, act.a)
    ensures LockOk(cfg, Apply(cfg, s, act), k)
  {
    OthersKeepPhase(cfg, s, act, s.locks[k]);
    if !act.TakeLock? && !act.Commit? && !act.Abort? {
      LocksFrame(cfg, s, act);
    }
  }

  /** The lock of the actor that moves, or a free lock. */
  lemma OwnLockStep(cfg: Config, s: State, act: Action, k: int)
    requires LockOk(cfg, s, k) && Enabled(cfg, s, act) && ActorOf(act).Some?
    requires k in s.locks ==> s.locks[k] == act.a
    requires HolderOk(cfg, s, act.a) && ActorOk(cfg, s, act.a)
    ensures LockOk(cfg, Apply(cfg, s, act), k)
  {
    if !act.TakeLock? && !act.Commit? && !act.Abort? {
      LocksFrame(cfg, s, act);
    }
  }

  lemma LockStep(cfg: Config, s: State, act: Action, k: int)
    requires LockInv(cfg, s) && QueueInv(cfg, s) && Enabled(cfg, s, act)
    ensures LockOk(cfg, Apply(cfg, s, act), k)
  {
    assert LockOk(cfg, s, k);
    if ActorOf(act).Some? {
      assert HolderOk(cfg, s, act.a) && ActorOk(cfg, s, act.a);
    }
    if k in s.locks && ActorOf(act) != Some(s.locks[k]) {
      OtherLockStep(cfg, s, act, k);
    } else if ActorOf(act).Some? {
      OwnLockStep(cfg, s, act, k);
    } else {
      LocksFrame(cfg, s, act);
    }
  }

  lemma LockInvStep(cfg: Config, s: State, act: Action)
    requires LockInv(cfg, s) && QueueInv(cfg, s) && Enabled(cfg, s, act)
    ensures LockInv(cfg, Apply(cfg, s, act))
  {
    var s' := Apply(cfg, s, act);
    forall b: ActorId ensures HolderOk(cfg, s', b) {
      if ActorOf(act) == Some(b) {
        OwnHolderStep(cfg, s, act);
      } else {
        OtherHolderStep(cfg, s, act, b);
      }
    }
    forall k ensures LockOk(cfg, s', k) {
      LockStep(cfg, s, act, k);
    }
  }

  // ----------------------------------------------------------------- queries

  lemma RowsAppend(table: seq<Row>, r: Row, org: string, chain: string)
    ensures Rows(table + [r], org, chain) == Rows(table, org, chain) + (if Belongs(r.entry, org, chain) then [r.entry] else [])
  {
    assert (table + [r])[..|table|] == table;
  }

  /** On a linear chain the tail query returns the last row. */
  /** The ids of the three records are strictly ordered. */
  predicate IdsOrdered(idLess: (string, string) -> bool, a: string, b: string, c: string) {
    && !idLess(a, a) && (a == b || idLess(a, b) || idLess(b, a)) && !(idLess(a, b) && idLess(b, a))
    && (idLess(c, b) && idLess(b, a) ==> idLess(c, a))
  }

  /**
   The order of the queries is strict and leaves no two records with different ids
   undecided, even where a chain has forked; the sequence number decides first, then the
   time, then the id.
   */
  lemma OrderIsStrictAndTotal(cfg: Config, a: DecisionEntry, b: DecisionEntry, c: DecisionEntry)
    requires IdsOrdered(cfg.idLess, a.body.id, b.body.id, c.body.id)
    ensures !After(cfg, a, a) && !(After(cfg, a, b) && After(cfg, b, a))
    ensures After(cfg, a, b) && After(cfg, b, c) ==> After(cfg, a, c)
    ensures a.body.id != b.body.id ==> After(cfg, a, b) || After(cfg, b, a)
    ensures a.chainSeq > b.chainSeq ==> After(cfg, a, b)
    ensures a.chainSeq == b.chainSeq && a.body.createdAtMicros > b.body.createdAtMicros ==> After(cfg, a, b)
  {}

  lemma TailIsLast(cfg: Config, rows: seq<DecisionEntry>, tail: Option<DecisionEntry>)
    requires Linear(cfg.c, rows) && IsTail(cfg, rows, tail)
    ensures tail == if rows == [] then None else Some(rows[|rows| - 1])
  {
    if tail.Some? {
      var k :| 0 <= k < |rows| && rows[k] == tail.value;
      assert !After(cfg, rows[|rows| - 1], tail.value);
    }
  }

  lemma {:induction false} RisingFromBelow(a: seq<int>, i: nat)
    requires i < |a| && a[0] >= 1 && forall k, l | 0 <= k < l < |a| :: a[k] < a[l]
    ensures a[i] >= i + 1
  {
    if i > 0 {
      RisingFromBelow(a, i - 1);
      assert a[i - 1] < a[i];
    }
  }

  lemma {:induction false} RisingFromAbove(a: seq<int>, i: nat)
    requires i < |a| && a[|a| - 1] <= |a| && forall k, l | 0 <= k < l < |a| :: a[k] < a[l]
    ensures a[i] <= i + 1
    decreases |a| - i
  {
    if i + 1 < |a| {
      RisingFromAbove(a, i + 1);
      assert a[i] < a[i + 1];
    }
  }

  lemma AtItsPosition(c: Crypto, rows: seq<DecisionEntry>, e: DecisionEntry)
    requires Linear(c, rows) && e in rows
    ensures 1 <= e.chainSeq <= |rows| && rows[e.chainSeq - 1] == e
  {
    var k :| 0 <= k < |rows| && rows[k] == e;
    assert rows[k].chainSeq == k + 1;
  }

  /** On a linear chain the verifier's query returns the rows in commit order. */
  lemma ListingIsRows(cfg: Config, rows: seq<DecisionEntry>, listing: seq<DecisionEntry>)
    requires Linear(cfg.c, rows) && IsListing(cfg, rows, listing)
    ensures listing == rows
  {
    if rows != [] {
      var a := seq(|listing|, i requires 0 <= i < |listing| => listing[i].chainSeq);
      forall i | 0 <= i < |listing| ensures 1 <= a[i] <= |rows| && listing[i] == rows[a[i] - 1] {
        AtItsPosition(cfg.c, rows, listing[i]);
      }
      forall k, l | 0 <= k < l < |a| ensures a[k] < a[l] {
        assert listing[k] != listing[l] && !After(cfg, listing[k], listing[l]);
      }
      forall i | 0 <= i < |listing| ensures listing[i] == rows[i] {
        RisingFromBelow(a, i);
        RisingFromAbove(a, i);
      }
    }
  }

  // ---------------------------------------------------------- rows and bodies

  /** A sealed row carries its caller's entry. */
  predicate BodyOk(s: State, a: ActorId) {
    PhaseOf(s, a).Sealed? ==> a in s.hand && PhaseOf(s, a).row.body == s.hand[a].entry.body && PhaseOf(s, a).row in s.sealedRecords
  }

  ghost predicate BodyInv(s: State) {
    forall a: ActorId {:trigger BodyOk(s, a)} :: BodyOk(s, a)
  }

  lemma BodyInvStep(cfg: Config, s: State, act: Action)
    requires BodyInv(s) && Enabled(cfg, s, act)
    ensures BodyInv(Apply(cfg, s, act))
  {
    forall b: ActorId ensures BodyOk(Apply(cfg, s, act), b) {
      assert BodyOk(s, b);
      if ActorOf(act) == Some(b) {
        OwnBodyStep(cfg, s, act);
      } else {
        OtherBodyStep(cfg, s, act, b);
      }
    }
  }

  lemma OwnBodyStep(cfg: Config, s: State, act: Action)
    requires ActorOf(act).Some? && BodyOk(s, act.a) && Enabled(cfg, s, act)
    ensures BodyOk(Apply(cfg, s, act), act.a)
  {
    if !act.SealRow? {
      NotSealed(cfg, s, act);
    }
  }

  lemma OtherBodyStep(cfg: Config, s: State, act: Action, b: ActorId)
    requires BodyOk(s, b) && Enabled(cfg, s, act) && ActorOf(act) != Some(b)
    ensures BodyOk(Apply(cfg, s, act), b)
  {
    OthersKeepPhase(cfg, s, act, b);
    RecordsGrow(cfg, s, act);
  }

  lemma RecordsGrow(cfg: Config, s: State, act: Action)
    requires Enabled(cfg, s, act)
    ensures s.sealedRecords <= Apply(cfg, s, act).sealedRecords
  {
    if !act.Commit? {
      RecordsFrame(cfg, s, act);
    }
  }

  // ------------------------------------------------------------------ chains

  /** Two spellings of one chain id take one lock. */
  ghost predicate SharesLocks(cfg: Config) {
    forall org, x, y {:trigger cfg.lockKey(org, x), cfg.lockKey(org, y)} |
      org != "" && cfg.canonical(x) == cfg.canonical(y) :: cfg.lockKey(org, x) == cfg.lockKey(org, y)
  }

  /** The sealed records as the table would return them. */
  function StoredRecords(cfg: Config, records: set<DecisionEntry>): set<DecisionEntry> {
    set r | r in records :: Stored(cfg, r)
  }

  /** A row awaiting its commit extends the present tail of its chain. */
  predicate PendingOk(cfg: Config, s: State, a: ActorId) {
    PhaseOf(s, a).Sealed? ==>
      var row := PhaseOf(s, a).row;
      && row.chainSeq == |ChainRows(cfg, s, row)| + 1
      && row.prevHash == HashBefore(cfg.c, ChainRows(cfg, s, row), |ChainRows(cfg, s, row)|)
  }

  ghost predicate ChainOk(cfg: Config, s: State, org: string, chain: string) {
    History(cfg.c, Rows(s.table, org, chain), StoredRecords(cfg, s.sealedRecords), org, chain)
  }

  /** The record was sealed under one actor's signer, or unsigned by an actor that has none. */
  ghost predicate SealedBySome(cfg: Config, r: DecisionEntry) {
    exists a: ActorId :: SealedByActor(cfg, r, a)
  }

  predicate SealedByActor(cfg: Config, r: DecisionEntry, a: ActorId) {
    r == Seal(cfg.c, cfg.signer(a), r, r.prevHash, r.chainSeq)
  }

  ghost predicate ChainInv(cfg: Config, s: State) {
    && (forall org, chain {:trigger ChainOk(cfg, s, org, chain)} :: ChainOk(cfg, s, org, chain))
    && (forall a {:trigger PendingOk(cfg, s, a)} :: PendingOk(cfg, s, a))
    && (forall r {:trigger SealedBySome(cfg, r)} | r in s.sealedRecords :: SealedBySome(cfg, r))
  }

  lemma HistoryOfSeal(c: Crypto, rows: seq<DecisionEntry>, records: set<DecisionEntry>, org: string, chain: string, row: DecisionEntry)
    requires History(c, rows, records, org, chain)
    requires Belongs(row, org, chain) ==> FollowsPrefix(c, rows, row)
    ensures History(c, rows, records + {row}, org, chain)
  {
    forall r | r in records + {row} && Belongs(r, org, chain) ensures FollowsPrefix(c, rows, r) {
      if r in records {
        assert FollowsPrefix(c, rows, r);
      }
    }
  }

  lemma HistoryOfCommit(c: Crypto, rows: seq<DecisionEntry>, records: set<DecisionEntry>, org: string, chain: string, row: DecisionEntry)
    requires History(c, rows, records, org, chain)
    requires row in records && Belongs(row, org, chain)
    requires row.prevHash == HashBefore(c, rows, |rows|) && row.chainSeq == |rows| + 1
    ensures History(c, rows + [row], records, org, chain)
  {
    LinearExtend(c, rows, row);
    forall r | r in records && Belongs(r, org, chain) ensures FollowsPrefix(c, rows + [row], r) {
      assert FollowsPrefix(c, rows, r);
      assert HashBefore(c, rows + [row], r.chainSeq - 1) == HashBefore(c, rows, r.chainSeq - 1);
    }
  }

  /** The row sealed from the tail query's answer extends the chain, and carries the caller's entry. */
  lemma SealedFromTail(cfg: Config, rows: seq<DecisionEntry>, e: DecisionEntry, tail: Option<DecisionEntry>, a: ActorId)
    requires Linear(cfg.c, rows) && IsTail(cfg, rows, tail)
    ensures var row := SealFromTail(cfg.c, cfg.signer(a), e, tail);
            && row.body == e.body && row.metadata == e.metadata
            && row.chainSeq == |rows| + 1 && row.prevHash == HashBefore(cfg.c, rows, |rows|)
            && SealedByActor(cfg, row, a)
  {
    TailIsLast(cfg, rows, tail);
    SealIsStable(cfg.c, cfg.signer(a), e, HashBefore(cfg.c, rows, |rows|), |rows| + 1);
  }

  lemma StoredRecordsAdd(cfg: Config, records: set<DecisionEntry>, row: DecisionEntry)
    ensures StoredRecords(cfg, records + {row}) == StoredRecords(cfg, records) + {Stored(cfg, row)}
  {}

  /** The new row takes the place after the last row of its chain. */
  lemma SealFollows(cfg: Config, rows: seq<DecisionEntry>, e: DecisionEntry, tail: Option<DecisionEntry>, a: ActorId)
    requires Linear(cfg.c, rows) && IsTail(cfg, rows, tail)
    ensures FollowsPrefix(cfg.c, rows, Stored(cfg, SealFromTail(cfg.c, cfg.signer(a), e, tail)))
  {
    SealedFromTail(cfg, rows, e, tail, a);
  }

  lemma SealHistory(cfg: Config, rows: seq<DecisionEntry>, records: set<DecisionEntry>, org: string, chain: string, row: DecisionEntry)
    requires History(cfg.c, rows, StoredRecords(cfg, records), org, chain)
    requires Belongs(Stored(cfg, row), org, chain) ==> FollowsPrefix(cfg.c, rows, Stored(cfg, row))
    ensures History(cfg.c, rows, StoredRecords(cfg, records + {row}), org, chain)
  {
    StoredRecordsAdd(cfg, records, row);
    HistoryOfSeal(cfg.c, rows, StoredRecords(cfg, records), org, chain, Stored(cfg, row));
  }

  lemma ChainStepSeal(cfg: Config, s: State, a: ActorId, tail: Option<DecisionEntry>, org: string, chain: string)
    requires ChainOk(cfg, s, org, chain) && Enabled(cfg, s, SealRow(a, tail))
    requires ChainOk(cfg, s, s.hand[a].entry.body.orgId, cfg.canonical(s.hand[a].entry.body.chainId))
    ensures ChainOk(cfg, Apply(cfg, s, SealRow(a, tail)), org, chain)
  {
    var e := s.hand[a].entry;
    SealFollows(cfg, ChainRows(cfg, s, e), e, tail, a);
    SealHistory(cfg, Rows(s.table, org, chain), s.sealedRecords, org, chain, SealFromTail(cfg.c, cfg.signer(a), e, tail));
  }

  lemma ChainStepCommit(cfg: Config, s: State, act: Action, org: string, chain: string)
    requires act.Commit? && ChainInv(cfg, s) && BodyOk(s, act.a) && Enabled(cfg, s, act)
    ensures ChainOk(cfg, Apply(cfg, s, act), org, chain)
  {
    var row := Stored(cfg, PhaseOf(s, act.a).row);
    assert ChainOk(cfg, s, org, chain) && PendingOk(cfg, s, act.a);
    assert row in StoredRecords(cfg, s.sealedRecords);
    RowsAppend(s.table, Row(s.hand[act.a].id, row), org, chain);
    if Belongs(row, org, chain) {
      HistoryOfCommit(cfg.c, Rows(s.table, org, chain), StoredRecords(cfg, s.sealedRecords), org, chain, row);
    } else {
      assert Rows(s.table, org, chain) + [] == Rows(s.table, org, chain);
    }
  }

  lemma ChainStep(cfg: Config, s: State, act: Action, org: string, chain: string)
    requires ChainInv(cfg, s) && BodyInv(s) && Enabled(cfg, s, act)
    ensures ChainOk(cfg, Apply(cfg, s, act), org, chain)
  {
    if act.SealRow? {
      var e := s.hand[act.a].entry;
      assert ChainOk(cfg, s, org, chain) && ChainOk(cfg, s, e.body.orgId, cfg.canonical(e.body.chainId));
      ChainStepSeal(cfg, s, act.a, act.tail, org, chain);
    } else if act.Commit? {
      assert BodyOk(s, act.a);
      ChainStepCommit(cfg, s, act, org, chain);
    } else {
      assert ChainOk(cfg, s, org, chain);
      SameRecords(cfg, s, act);
    }
  }

  /** The advisory lock keeps two pending rows off one chain, if its spellings share the lock. */
  lemma PendingRowsDiffer(cfg: Config, s: State, a: ActorId, b: ActorId)
    requires SharesLocks(cfg) && HolderOk(cfg, s, a) && HolderOk(cfg, s, b) && BodyOk(s, a) && BodyOk(s, b) && a != b
    requires PhaseOf(s, a).Sealed? && PhaseOf(s, b).Sealed? && s.hand[a].entry.body.orgId != ""
    ensures !Belongs(Stored(cfg, PhaseOf(s, a).row), PhaseOf(s, b).row.body.orgId, cfg.canonical(PhaseOf(s, b).row.body.chainId))
  {
    var mine, theirs := s.hand[a].entry, s.hand[b].entry;
    assert Key(cfg, mine) != Key(cfg, theirs);
  }

  lemma PendingStepCommit(cfg: Config, s: State, act: Action, b: ActorId)
    requires SharesLocks(cfg) && PendingOk(cfg, s, b) && LockInv(cfg, s) && BodyInv(s) && Enabled(cfg, s, act) && act.Commit? && act.a != b
    requires s.hand[act.a].entry.body.orgId != ""
    ensures PendingOk(cfg, Apply(cfg, s, act), b)
  {
    OthersKeepPhase(cfg, s, act, b);
    if PhaseOf(s, b).Sealed? {
      var mine, theirs := Stored(cfg, PhaseOf(s, act.a).row), PhaseOf(s, b).row;
      assert HolderOk(cfg, s, act.a) && HolderOk(cfg, s, b) && BodyOk(s, act.a) && BodyOk(s, b);
      PendingRowsDiffer(cfg, s, act.a, b);
      RowsAppend(s.table, Row(s.hand[act.a].id, mine), theirs.body.orgId, cfg.canonical(theirs.body.chainId));
      assert ChainRows(cfg, Apply(cfg, s, act), theirs) == ChainRows(cfg, s, theirs);
    }
  }

  lemma SameRecords(cfg: Config, s: State, act: Action)
    requires Enabled(cfg, s, act) && !act.SealRow? && !act.Commit?
    ensures Apply(cfg, s, act).table == s.table && Apply(cfg, s, act).sealedRecords == s.sealedRecords
  {
    RecordsFrame(cfg, s, act);
  }

  lemma WriterRecordsFrame(cfg: Config, s: State, act: Action)
    requires Enabled(cfg, s, act) && WritesRow(act) && !act.Commit?
    ensures Apply(cfg, s, act).table == s.table && s.sealedRecords <= Apply(cfg, s, act).sealedRecords
  {}

  lemma RecordsFrame(cfg: Config, s: State, act: Action)
    requires Enabled(cfg, s, act) && !act.Commit?
    ensures Apply(cfg, s, act).table == s.table && s.sealedRecords <= Apply(cfg, s, act).sealedRecords
  {
    if WritesRow(act) {
      WriterRecordsFrame(cfg, s, act);
    }
  }

  lemma PendingFrame(cfg: Config, s: State, act: Action, b: ActorId)
    requires PendingOk(cfg, s, b) && Enabled(cfg, s, act) && !act.Commit? && ActorOf(act) != Some(b)
    ensures PendingOk(cfg, Apply(cfg, s, act), b)
  {
    OthersKeepPhase(cfg, s, act, b);
    RecordsFrame(cfg, s, act);
  }

  lemma PendingStep(cfg: Config, s: State, act: Action, b: ActorId)
    requires SharesLocks(cfg) && PendingOk(cfg, s, b) && LockInv(cfg, s) && BodyInv(s) && Enabled(cfg, s, act) && ActorOf(act) != Some(b)
    requires act.Commit? ==> s.hand[act.a].entry.body.orgId != ""
    ensures PendingOk(cfg, Apply(cfg, s, act), b)
  {
    if act.Commit? {
      PendingStepCommit(cfg, s, act, b);
    } else {
      PendingFrame(cfg, s, act, b);
    }
  }

  lemma OwnPendingStep(cfg: Config, s: State, act: Action)
    requires ChainInv(cfg, s) && Enabled(cfg, s, act) && ActorOf(act).Some?
    ensures PendingOk(cfg, Apply(cfg, s, act), act.a)
  {
    if act.SealRow? {
      var e := s.hand[act.a].entry;
      assert ChainOk(cfg, s, e.body.orgId, cfg.canonical(e.body.chainId));
      SealedFromTail(cfg, ChainRows(cfg, s, e), e, act.tail, act.a);
    } else {
      NotSealed(cfg, s, act);
    }
  }

  lemma NotSealed(cfg: Config, s: State, act: Action)
    requires Enabled(cfg, s, act) && ActorOf(act).Some? && !act.SealRow?
    ensures !PhaseOf(Apply(cfg, s, act), act.a).Sealed?
  {}

  lemma SealsStep(cfg: Config, s: State, act: Action, r: DecisionEntry)
    requires ChainInv(cfg, s) && Enabled(cfg, s, act) && r in Apply(cfg, s, act).sealedRecords
    ensures SealedBySome(cfg, r)
  {
    if r in s.sealedRecords {
      assert SealedBySome(cfg, r);
    } else {
      NewSealStep(cfg, s, act, r);
    }
  }

  lemma NewSealStep(cfg: Config, s: State, act: Action, r: DecisionEntry)
    requires ChainInv(cfg, s) && Enabled(cfg, s, act)
    requires r in Apply(cfg, s, act).sealedRecords && r !in s.sealedRecords
    ensures SealedBySome(cfg, r)
  {
    assert act.SealRow?;
    var e := s.hand[act.a].entry;
    assert ChainOk(cfg, s, e.body.orgId, cfg.canonical(e.body.chainId));
    SealedFromTail(cfg, ChainRows(cfg, s, e), e, act.tail, act.a);
    assert SealedByActor(cfg, r, act.a);
  }

  lemma ChainInvStep(cfg: Config, s: State, act: Action)
    requires SharesLocks(cfg) && ChainInv(cfg, s) && LockInv(cfg, s) && BodyInv(s) && ContentInv(cfg, s) && Enabled(cfg, s, act)
    ensures ChainInv(cfg, Apply(cfg, s, act))
  {
    var s' := Apply(cfg, s, act);
    forall org, chain ensures ChainOk(cfg, s', org, chain) {
      ChainStep(cfg, s, act, org, chain);
    }
    forall b: ActorId ensures PendingOk(cfg, s', b) {
      if ActorOf(act) == Some(b) {
        OwnPendingStep(cfg, s, act);
      } else {
        assert PendingOk(cfg, s, b);
        if act.Commit? {
          HandIsNamed(cfg, s, act.a);
        }
        PendingStep(cfg, s, act, b);
      }
    }
    forall r | r in s'.sealedRecords ensures SealedBySome(cfg, r) {
      SealsStep(cfg, s, act, r);
    }
  }

  // --------------------------------------------------------------- whole runs

  predicate IsCall(calls: seq<DecisionEntry>, j: Job) {
    j.id < |calls| && j.entry == calls[j.id]
  }

  predicate IsRecordOfCall(cfg: Config, calls: seq<DecisionEntry>, r: Row) {
    r.job < |calls| && r.entry.body == Stored(cfg, calls[r.job]).body
  }

  predicate Named(calls: seq<DecisionEntry>) {
    forall i | 0 <= i < |calls| :: calls[i].body.orgId != ""
  }

  ghost predicate Content(cfg: Config, calls: seq<DecisionEntry>, hand: map<ActorId, Job>, queue: seq<Job>, table: seq<Row>) {
    && (forall a | a in hand :: IsCall(calls, hand[a]))
    && (forall i | 0 <= i < |queue| :: IsCall(calls, queue[i]))
    && (forall i | 0 <= i < |table| :: IsRecordOfCall(cfg, calls, table[i]))
  }

  /** Every entry in flight is the one its call passed, and every committed row records its own call, which named its org. */
  ghost predicate ContentInv(cfg: Config, s: State) {
    s.recorded == |s.calls| && Named(s.calls) && Content(cfg, s.calls, s.hand, s.queue, s.table)
  }

  lemma HandIsNamed(cfg: Config, s: State, a: ActorId)
    requires ContentInv(cfg, s) && a in s.hand
    ensures s.hand[a].entry.body.orgId != ""
  {
    assert IsCall(s.calls, s.hand[a]);
  }

  lemma ContentCall(cfg: Config, calls: seq<DecisionEntry>, hand: map<ActorId, Job>, queue: seq<Job>, table: seq<Row>, a: ActorId, e: DecisionEntry)
    requires Content(cfg, calls, hand, queue, table)
    ensures Content(cfg, calls + [e], hand[a := Job(|calls|, e)], queue, table)
  {
    forall i | 0 <= i < |table| ensures IsRecordOfCall(cfg, calls + [e], table[i]) {
      assert IsRecordOfCall(cfg, calls, table[i]);
    }
  }

  lemma ContentSend(cfg: Config, calls: seq<DecisionEntry>, hand: map<ActorId, Job>, queue: seq<Job>, table: seq<Row>, a: ActorId)
    requires Content(cfg, calls, hand, queue, table) && a in hand
    ensures Content(cfg, calls, hand - {a}, queue + [hand[a]], table)
  {}

  lemma ContentReceive(cfg: Config, calls: seq<DecisionEntry>, hand: map<ActorId, Job>, queue: seq<Job>, table: seq<Row>, a: ActorId)
    requires Content(cfg, calls, hand, queue, table) && queue != []
    ensures Content(cfg, calls, hand[a := queue[0]], queue[1..], table)
  {}

  lemma ContentCommit(cfg: Config, calls: seq<DecisionEntry>, hand: map<ActorId, Job>, queue: seq<Job>, table: seq<Row>, a: ActorId, row: DecisionEntry)
    requires Content(cfg, calls, hand, queue, table) && a in hand && row.body == hand[a].entry.body
    ensures Content(cfg, calls, hand - {a}, queue, table + [Row(hand[a].id, Stored(cfg, row))])
  {
    assert IsCall(calls, hand[a]);
  }

  lemma ContentFrame(cfg: Config, s: State, act: Action)
    requires Enabled(cfg, s, act) && !act.Call? && !act.TrySend? && !act.Receive? && !act.Commit? && !act.Abort?
    ensures var s' := Apply(cfg, s, act);
            s'.recorded == s.recorded && s'.calls == s.calls && s'.hand == s.hand && s'.queue == s.queue && s'.table == s.table
  {}

  lemma ContentCommitStep(cfg: Config, s: State, a: ActorId)
    requires ContentInv(cfg, s) && BodyOk(s, a) && Enabled(cfg, s, Commit(a))
    ensures ContentInv(cfg, Apply(cfg, s, Commit(a)))
  {
    ContentCommit(cfg, s.calls, s.hand, s.queue, s.table, a, PhaseOf(s, a).row);
  }

  lemma ContentAbortStep(cfg: Config, s: State, a: ActorId)
    requires ContentInv(cfg, s) && Enabled(cfg, s, Abort(a))
    ensures ContentInv(cfg, Apply(cfg, s, Abort(a)))
  {
    assert forall b | b in s.hand - {a} :: (s.hand - {a})[b] == s.hand[b];
  }

  lemma ContentCallStep(cfg: Config, s: State, a: ActorId, e: DecisionEntry)
    requires ContentInv(cfg, s) && Enabled(cfg, s, Call(a, e))
    ensures ContentInv(cfg, Apply(cfg, s, Call(a, e)))
  {
    ContentCall(cfg, s.calls, s.hand, s.queue, s.table, a, e);
  }

  lemma ContentSendStep(cfg: Config, s: State, a: ActorId)
    requires ContentInv(cfg, s) && Enabled(cfg, s, TrySend(a))
    ensures ContentInv(cfg, Apply(cfg, s, TrySend(a)))
  {
    ContentSend(cfg, s.calls, s.hand, s.queue, s.table, a);
  }

  lemma ContentReceiveStep(cfg: Config, s: State, a: ActorId)
    requires ContentInv(cfg, s) && Enabled(cfg, s, Receive(a))
    ensures ContentInv(cfg, Apply(cfg, s, Receive(a)))
  {
    ContentReceive(cfg, s.calls, s.hand, s.queue, s.table, a);
  }

  lemma ContentInvStep(cfg: Config, s: State, act: Action)
    requires ContentInv(cfg, s) && BodyInv(s) && Enabled(cfg, s, act)
    ensures ContentInv(cfg, Apply(cfg, s, act))
  {
    if act.Commit? {
      assert BodyOk(s, act.a);
      ContentCommitStep(cfg, s, act.a);
    } else if act.Abort? {
      ContentAbortStep(cfg, s, act.a);
    } else if act.Call? {
      ContentCallStep(cfg, s, act.a, act.entry);
    } else if act.TrySend? {
      ContentSendStep(cfg, s, act.a);
    } else if act.Receive? {
      ContentReceiveStep(cfg, s, act.a);
    } else {
      ContentFrame(cfg, s, act);
    }
  }

  /** What holds in every run, however chain ids are spelled. */
  ghost predicate BaseInv(cfg: Config, s: State) {
    QueueInv(cfg, s) && JobInv(s) && LockInv(cfg, s) && BodyInv(s) && ContentInv(cfg, s)
  }

  lemma BaseInvStep(cfg: Config, s: State, act: Action)
    requires BaseInv(cfg, s) && Enabled(cfg, s, act)
    ensures BaseInv(cfg, Apply(cfg, s, act))
  {
    QueueInvStep(cfg, s, act);
    JobInvStep(cfg, s, act);
    LockInvStep(cfg, s, act);
    BodyInvStep(cfg, s, act);
    ContentInvStep(cfg, s, act);
  }

  lemma {:induction false} RunKeepsBase(cfg: Config, acts: seq<Action>)
    ensures Run(cfg, acts).Some? ==> BaseInv(cfg, Run(cfg, acts).value)
  {
    if acts != [] {
      var acts', act := acts[..|acts| - 1], acts[|acts| - 1];
      RunKeepsBase(cfg, acts');
      if Run(cfg, acts').Some? && Enabled(cfg, Run(cfg, acts').value, act) {
        BaseInvStep(cfg, Run(cfg, acts').value, act);
      }
    }
  }

  lemma InitChains(cfg: Config)
    ensures ChainInv(cfg, INIT)
  {
    forall org, chain ensures ChainOk(cfg, INIT, org, chain) {
      assert Rows(INIT.table, org, chain) == [];
    }
  }

  lemma {:induction false} RunKeepsInv(cfg: Config, acts: seq<Action>)
    requires SharesLocks(cfg)
    ensures Run(cfg, acts).Some? ==> ChainInv(cfg, Run(cfg, acts).value)
  {
    if acts == [] {
      InitChains(cfg);
    } else {
      var acts', act := acts[..|acts| - 1], acts[|acts| - 1];
      RunKeepsInv(cfg, acts');
      RunKeepsBase(cfg, acts');
      if Run(cfg, acts').Some? && Enabled(cfg, Run(cfg, acts').value, act) {
        ChainInvStep(cfg, Run(cfg, acts').value, act);
      }
    }
  }

  /**
   In every interleaving, rolled-back appends included, the committed rows of each
   (org, chain) form one linear chain that both queries read back: the tail query its
   last row, the verifier's query the rows in commit order.
   */
  lemma NoForks(cfg: Config, acts: seq<Action>, org: string, chain: string)
    requires SharesLocks(cfg) && Run(cfg, acts).Some?
    ensures var s := Run(cfg, acts).value; var rows := Rows(s.table, org, chain);
            && Linear(cfg.c, rows)
            && (forall tail | IsTail(cfg, rows, tail) :: tail == if rows == [] then None else Some(rows[|rows| - 1]))
            && (forall listing | IsListing(cfg, rows, listing) :: listing == rows)
  {
    RunKeepsInv(cfg, acts);
    var s := Run(cfg, acts).value;
    var rows := Rows(s.table, org, chain);
    assert ChainOk(cfg, s, org, chain);
    forall tail | IsTail(cfg, rows, tail) ensures tail == if rows == [] then None else Some(rows[|rows| - 1]) {
      TailIsLast(cfg, rows, tail);
    }
    forall listing | IsListing(cfg, rows, listing) ensures listing == rows {
      ListingIsRows(cfg, rows, listing);
    }
  }

  lemma {:induction false} DistinctQueueSize(queue: seq<Job>)
    requires DistinctQueue(queue)
    ensures |QueueIds(queue)| == |queue|
  {
    if queue != [] {
      PopQueue(queue);
      DistinctQueueSize(queue[1..]);
      assert queue[0].id in QueueIds(queue);
    }
  }

  lemma {:induction false} DistinctTableSize(table: seq<Row>)
    requires DistinctTable(table)
    ensures |TableIds(table)| == |table|
  {
    if table != [] {
      var front, last := table[..|table| - 1], table[|table| - 1];
      assert table == front + [last];
      assert last.job !in TableIds(front);
      PushTable(front, last);
      DistinctTableSize(front);
    }
  }

  lemma {:induction false} DistinctHandSize(hand: map<ActorId, Job>)
    requires DistinctHands(hand)
    ensures |HandIds(hand)| == |hand|
    decreases |hand|
  {
    if hand != map[] {
      var a :| a in hand;
      DropHand(hand, a);
      DistinctHandSize(hand - {a});
      assert hand[a].id in HandIds(hand);
      assert (hand - {a}).Keys == hand.Keys - {a};
    }
  }

  lemma {:induction false} FirstIdsSize(ids: set<nat>, n: nat)
    requires forall id :: 0 <= id < n <==> id in ids
    ensures |ids| == n
  {
    if n > 0 {
      FirstIdsSize(ids - {n - 1}, n - 1);
    } else {
      assert ids == {};
    }
  }

  /** decisions_recorded is the sum of the calls in hand, queued, committed and failed. */
  lemma CountsAddUp(s: State)
    requires JobInv(s)
    ensures s.recorded == |s.hand| + |s.queue| + |s.table| + |s.failed|
  {
    DistinctHandSize(s.hand);
    DistinctQueueSize(s.queue);
    DistinctTableSize(s.table);
    var h, q, t := HandIds(s.hand), QueueIds(s.queue), TableIds(s.table);
    FirstIdsSize(h + q + t + s.failed, s.recorded);
    assert |h + q + t + s.failed| == |h + q + t| + |s.failed|;
    assert |h + q + t| == |h + q| + |t|;
  }

  /**
   In every interleaving each counted call is in exactly one of the four places:
   in the hand of its caller or of a worker, queued, committed, or counted as a
   write error; a committed row records the call with its id. Nothing is ever sent on a
   closed channel.
   */
  lemma CallsAreConserved(cfg: Config, acts: seq<Action>)
    requires Run(cfg, acts).Some?
    ensures var s := Run(cfg, acts).value;
            && Accounted(s.hand, s.queue, s.table, s.failed, s.recorded)
            && s.recorded == |s.hand| + |s.queue| + |s.table| + |s.failed|
            && s.recordErrors == s.rejected + |s.failed|
            && ContentInv(cfg, s) && !s.panicked
  {
    RunKeepsBase(cfg, acts);
    CountsAddUp(Run(cfg, acts).value);
  }

  /**
   When Shutdown returns nil the queue is drained and no worker holds an entry, so every
   count is settled but the calls in progress; only a tracker set up without workers can
   leave entries queued.
   */
  lemma CleanShutdown(cfg: Config, acts: seq<Action>)
    requires Run(cfg, acts).Some? && Run(cfg, acts).value.shutdown.Complete?
    ensures var s := Run(cfg, acts).value;
            && (cfg.workers != {} ==> s.queue == []) && (forall w | w in cfg.workers :: w !in s.hand)
            && s.recorded == |s.hand| + |s.queue| + |s.table| + |s.failed|
            && s.recordErrors == s.rejected + |s.failed|
  {
    RunKeepsBase(cfg, acts);
    var s := Run(cfg, acts).value;
    CountsAddUp(s);
    forall w | w in cfg.workers ensures w !in s.hand && s.queue == [] {
      assert ActorOk(cfg, s, w);
    }
  }

  lemma ChainIsTamperEvident(c: Crypto, keys: map<string, string>, rows: seq<DecisionEntry>, records: set<DecisionEntry>,
                             org: string, chain: string, presented: seq<DecisionEntry>) returns (last: DecisionEntry)
    requires HashesRecords(c) && CleanRecords(records) && History(c, rows, records, org, chain)
    requires GoesUnseen(c, keys, records, org, chain, presented)
    ensures Evident(rows, records, org, chain, presented, last)
  {
    last := AcceptedFollowsCommitted(c, keys, rows, records, org, chain, presented);
    if NothingRolledBack(rows, records, org, chain) {
      OnlyTruncationGoesUnseen(c, keys, rows, records, org, chain, presented);
    }
  }

  /**
   The presented list is the committed chain in all but its last record; the last
   is a record sealed for that very position; and the list is a prefix of the
   committed chain unless a sealed record was rolled back.
   */
  ghost predicate Evident(rows: seq<DecisionEntry>, records: set<DecisionEntry>, org: string, chain: string,
                          presented: seq<DecisionEntry>, last: DecisionEntry) {
    var n := |presented| - 1;
    && 0 <= n <= |rows| && (forall i | 0 <= i < n :: SameRecord(presented[i], rows[i]))
    && last in records && SameRecord(last, presented[n]) && last.chainSeq == n + 1
    && (NothingRolledBack(rows, records, org, chain) ==> IsPrefixOf(presented, rows))
  }

  /** Every record was sealed with its ids in the spelling in which they are read back. */
  ghost predicate CanonicalRecords(cfg: Config, records: set<DecisionEntry>) {
    forall r | r in records :: Stored(cfg, r) == r
  }

  lemma CanonicalHistory(cfg: Config, s: State, org: string, chain: string)
    requires ChainOk(cfg, s, org, chain) && CanonicalRecords(cfg, s.sealedRecords)
    ensures History(cfg.c, Rows(s.table, org, chain), s.sealedRecords, org, chain)
  {
    assert StoredRecords(cfg, s.sealedRecords) == s.sealedRecords by {
      forall r | r in s.sealedRecords ensures r in StoredRecords(cfg, s.sealedRecords) {
        assert Stored(cfg, r) == r;
      }
    }
  }

  /** Tamper evidence for what a run has left in the table, at any moment of it. */
  lemma RunIsTamperEvident(cfg: Config, acts: seq<Action>, s: State, keys: map<string, string>, org: string, chain: string,
                           presented: seq<DecisionEntry>) returns (last: DecisionEntry)
    requires SharesLocks(cfg) && Run(cfg, acts) == Some(s) && CanonicalRecords(cfg, s.sealedRecords)
    requires HashesRecords(cfg.c) && CleanRecords(s.sealedRecords)
    requires GoesUnseen(cfg.c, keys, s.sealedRecords, org, chain, presented)
    ensures Evident(Rows(s.table, org, chain), s.sealedRecords, org, chain, presented, last)
  {
    RunKeepsInv(cfg, acts);
    assert ChainOk(cfg, s, org, chain);
    CanonicalHistory(cfg, s, org, chain);
    last := ChainIsTamperEvident(cfg.c, keys, Rows(s.table, org, chain), s.sealedRecords, org, chain, presented);
  }
}
