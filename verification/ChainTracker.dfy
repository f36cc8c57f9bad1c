/** The tracker in memory mode: recording, the verifier loop, and what recording then verifying gives. */
module ChainTracker {
  import opened Wrappers
  import opened Decimal
  import opened DecisionRecord
  import opened DecisionChain
  import opened AuditPreimage

  datatype BreakReason = NoBreak | LinkageBreak | SignatureBreak(check: SignatureCheck)

  datatype ChainVerificationResult = ChainVerificationResult(
    chainId: string,
    orgId: string,
    totalRecords: nat,
    valid: bool,
    authorshipProven: bool,
    linkageValid: bool,
    signaturesValid: bool,
    signedRecords: nat,
    unsignedRecords: nat,
    firstBrokenSeq: int,
    firstBrokenRecordId: string,
    breakReason: BreakReason,
    signingKeyId: string,
    publicKey: string,
    verifiedAt: int)

  /** k is the first record that fails its link or its signature. */
  predicate IsFirstBreak(c: Crypto, keys: map<string, string>, rows: seq<DecisionEntry>, k: nat) {
    && k < |rows| && !RecordOk(c, keys, rows, k)
    && forall j {:trigger RecordOk(c, keys, rows, j)} | 0 <= j < k :: RecordOk(c, keys, rows, j)
  }

  /** What the result says when the loop stops at record k. */
  predicate ReportsBreak(c: Crypto, keys: map<string, string>, rows: seq<DecisionEntry>, k: nat, res: ChainVerificationResult)
    requires k < |rows|
  {
    && !res.valid
    && res.firstBrokenSeq == rows[k].chainSeq && res.firstBrokenRecordId == rows[k].body.id
    && res.linkageValid == LinkOk(c, rows, k) && res.signaturesValid == !res.linkageValid
    && res.signedRecords == SignedCount(rows, k) + (if res.linkageValid then 1 else 0)
    && res.unsignedRecords == k - SignedCount(rows, k)
    && res.breakReason == (if res.linkageValid then SignatureBreak(CheckSignature(c, keys, rows[k], ChainHashOf(c, rows[k])))
                           else LinkageBreak)
  }

  /** The record was signed under a key that is not in the table. */
  predicate KeyDropped(keys: map<string, string>, signer: Option<Signer>) {
    signer.Some? && signer.value.keyId !in keys
  }

  /** Of a chain recorded under any succession of keys, the verifier reports the first record whose key was dropped. */
  lemma FirstBreakIsFirstDroppedKey(c: Crypto, keys: map<string, string>, signers: seq<Option<Signer>>, rows: seq<DecisionEntry>, k: nat)
    requires SignsCorrectly(c) && Linear(c, rows) && SealedUnder(c, signers, rows) && KeysMatch(c, keys, signers)
    ensures IsFirstBreak(c, keys, rows, k) <==>
            k < |rows| && KeyDropped(keys, signers[k]) && forall j | 0 <= j < k :: !KeyDropped(keys, signers[j])
  {
    forall j | 0 <= j < |rows| ensures RecordOk(c, keys, rows, j) <==> !KeyDropped(keys, signers[j]) {
      RotatedChainBreaksAtDroppedKey(c, keys, signers, rows, j);
    }
  }

  /** The records of one org, in the order in which they were appended. */
  function ForOrg(rows: seq<DecisionEntry>, org: string): (r: seq<DecisionEntry>)
    ensures |r| <= |rows|
    ensures forall e | e in r :: e in rows && e.body.orgId == org
  {
    if rows == [] then []
    else
      var last := |rows| - 1;
      ForOrg(rows[..last], org) + (if rows[last].body.orgId == org then [rows[last]] else [])
  }

  lemma ForOrgAppend(rows: seq<DecisionEntry>, e: DecisionEntry, org: string)
    ensures ForOrg(rows + [e], org) == ForOrg(rows, org) + (if e.body.orgId == org then [e] else [])
  {
    assert (rows + [e])[..|rows|] == rows;
  }

  type Store = map<string, seq<DecisionEntry>>

  function Chain(store: Store, chain: string): seq<DecisionEntry> {
    if chain in store then store[chain] else []
  }

  function OrgChain(store: Store, org: string, chain: string): seq<DecisionEntry> {
    ForOrg(Chain(store, chain), org)
  }

  /** The record that takes the next free position of its (org, chain). */
  function NextRecord(c: Crypto, signer: Option<Signer>, store: Store, e: DecisionEntry): DecisionEntry {
    var mine := OrgChain(store, e.body.orgId, e.body.chainId);
    Seal(c, signer, e, HashBefore(c, mine, |mine|), |mine| + 1)
  }

  function AppendRecord(c: Crypto, signer: Option<Signer>, store: Store, e: DecisionEntry): Store {
    store[e.body.chainId := Chain(store, e.body.chainId) + [NextRecord(c, signer, store, e)]]
  }

  predicate SealedBy(c: Crypto, signer: Option<Signer>, rows: seq<DecisionEntry>) {
    forall i | 0 <= i < |rows| :: rows[i] == Seal(c, signer, rows[i], rows[i].prevHash, rows[i].chainSeq)
  }

  /** Every (org, chain) is one linear chain sealed by the tracker's signer. */
  ghost predicate StoreOk(c: Crypto, signer: Option<Signer>, store: Store) {
    forall org, chain ::
      Linear(c, OrgChain(store, org, chain)) && SealedBy(c, signer, OrgChain(store, org, chain))
  }

  lemma AppendRecordEffect(c: Crypto, signer: Option<Signer>, store: Store, e: DecisionEntry, org: string, chain: string)
    ensures OrgChain(AppendRecord(c, signer, store, e), org, chain) ==
            OrgChain(store, org, chain) +
            (if e.body.orgId == org && e.body.chainId == chain then [NextRecord(c, signer, store, e)] else [])
  {
    var store', r := AppendRecord(c, signer, store, e), NextRecord(c, signer, store, e);
    if e.body.chainId == chain {
      assert Chain(store', chain) == Chain(store, chain) + [r];
      ForOrgAppend(Chain(store, chain), r, org);
    } else {
      assert Chain(store', chain) == Chain(store, chain);
      assert OrgChain(store, org, chain) + [] == OrgChain(store, org, chain);
    }
  }

  lemma NextRecordShape(c: Crypto, signer: Option<Signer>, store: Store, e: DecisionEntry)
    ensures var mine, r := OrgChain(store, e.body.orgId, e.body.chainId), NextRecord(c, signer, store, e);
            && r.body == e.body && r.metadata == e.metadata
            && r.prevHash == HashBefore(c, mine, |mine|) && r.chainSeq == |mine| + 1
            && r == Seal(c, signer, r, r.prevHash, r.chainSeq)
  {
    var mine := OrgChain(store, e.body.orgId, e.body.chainId);
    SealIsStable(c, signer, e, HashBefore(c, mine, |mine|), |mine| + 1);
  }

  lemma SealedByExtend(c: Crypto, signer: Option<Signer>, rows: seq<DecisionEntry>, r: DecisionEntry)
    requires SealedBy(c, signer, rows) && r == Seal(c, signer, r, r.prevHash, r.chainSeq)
    ensures SealedBy(c, signer, rows + [r])
  {}

  lemma AppendKeepsOrgChain(c: Crypto, signer: Option<Signer>, store: Store, e: DecisionEntry, org: string, chain: string)
    requires Linear(c, OrgChain(store, org, chain)) && SealedBy(c, signer, OrgChain(store, org, chain))
    ensures Linear(c, OrgChain(AppendRecord(c, signer, store, e), org, chain))
    ensures SealedBy(c, signer, OrgChain(AppendRecord(c, signer, store, e), org, chain))
  {
    var mine, r := OrgChain(store, org, chain), NextRecord(c, signer, store, e);
    var rows := OrgChain(AppendRecord(c, signer, store, e), org, chain);
    AppendRecordEffect(c, signer, store, e, org, chain);
    if e.body.orgId == org && e.body.chainId == chain {
      NextRecordShape(c, signer, store, e);
      assert rows == mine + [r];
      SealedByExtend(c, signer, mine, r);
      LinearExtend(c, mine, r);
    } else {
      assert rows == mine;
    }
  }

  lemma AppendKeepsStoreOk(c: Crypto, signer: Option<Signer>, store: Store, e: DecisionEntry)
    requires StoreOk(c, signer, store)
    ensures StoreOk(c, signer, AppendRecord(c, signer, store, e))
  {
    var store' := AppendRecord(c, signer, store, e);
    forall org, chain
      ensures Linear(c, OrgChain(store', org, chain)) && SealedBy(c, signer, OrgChain(store', org, chain))
    {
      AppendKeepsOrgChain(c, signer, store, e, org, chain);
    }
  }

  // ------------------------------------------------------------ whole runs

  /** The store after a sequence of accepted calls. */
  function RunRecords(c: Crypto, signer: Option<Signer>, calls: seq<DecisionEntry>): Store {
    if calls == [] then map[]
    else AppendRecord(c, signer, RunRecords(c, signer, calls[..|calls| - 1]), calls[|calls| - 1])
  }

  /** The calls made for one (org, chain), in order. */
  function CallsFor(calls: seq<DecisionEntry>, org: string, chain: string): seq<DecisionEntry> {
    if calls == [] then []
    else
      var last := calls[|calls| - 1];
      CallsFor(calls[..|calls| - 1], org, chain) + (if last.body.orgId == org && last.body.chainId == chain then [last] else [])
  }

  // After any sequence of calls, with any number of orgs interleaved under one chain
  // id, each (org, chain) is a linear chain that holds exactly the records of its own
  // calls, in order.

  lemma {:induction false} RunRecordsAreLinear(c: Crypto, signer: Option<Signer>, calls: seq<DecisionEntry>)
    ensures StoreOk(c, signer, RunRecords(c, signer, calls))
  {
    if calls != [] {
      RunRecordsAreLinear(c, signer, calls[..|calls| - 1]);
      AppendKeepsStoreOk(c, signer, RunRecords(c, signer, calls[..|calls| - 1]), calls[|calls| - 1]);
    }
  }

  predicate Records(rows: seq<DecisionEntry>, calls: seq<DecisionEntry>) {
    && |rows| == |calls|
    && forall i | 0 <= i < |rows| :: rows[i].body == calls[i].body && rows[i].metadata == calls[i].metadata
  }

  lemma {:induction false} RunRecordsKeepCalls(c: Crypto, signer: Option<Signer>, calls: seq<DecisionEntry>, org: string, chain: string)
    ensures Records(OrgChain(RunRecords(c, signer, calls), org, chain), CallsFor(calls, org, chain))
  {
    if calls != [] {
      var calls', e := calls[..|calls| - 1], calls[|calls| - 1];
      var before := RunRecords(c, signer, calls');
      RunRecordsKeepCalls(c, signer, calls', org, chain);
      AppendRecordEffect(c, signer, before, e, org, chain);
      NextRecordShape(c, signer, before, e);
      RecordsExtend(OrgChain(before, org, chain), CallsFor(calls', org, chain), NextRecord(c, signer, before, e), e);
    }
  }

  lemma RecordsExtend(rows: seq<DecisionEntry>, calls: seq<DecisionEntry>, r: DecisionEntry, e: DecisionEntry)
    requires Records(rows, calls) && r.body == e.body && r.metadata == e.metadata
    ensures Records(rows + [r], calls + [e])
    ensures rows + [] == rows && calls + [] == calls
  {}

  lemma SealedChainVerifies(c: Crypto, signer: Option<Signer>, keys: map<string, string>, rows: seq<DecisionEntry>)
    requires SignsCorrectly(c) && Linear(c, rows) && SealedBy(c, signer, rows)
    requires signer.Some? ==> signer.value.keyId != "" && signer.value.keyId in keys
                              && keys[signer.value.keyId] == c.publicKey(signer.value.key)
    ensures forall i | 0 <= i < |rows| :: RecordOk(c, keys, rows, i) && (Signed(rows[i]) <==> signer.Some?)
  {
    var signers := seq(|rows|, _ => signer);
    forall i | 0 <= i < |rows| ensures RecordOk(c, keys, rows, i) && (Signed(rows[i]) <==> signer.Some?) {
      assert forall j | 0 <= j < |rows| :: signers[j] == signer;
      RotatedChainBreaksAtDroppedKey(c, keys, signers, rows, i);
    }
  }

  /** Recording then verifying succeeds for every run, and proves authorship exactly when a key is set. */
  lemma RecordingThenVerifyingSucceeds(
      c: Crypto, signer: Option<Signer>, extra: map<string, Option<string>>, calls: seq<DecisionEntry>, org: string, chain: string)
    requires SignsCorrectly(c) && (signer.Some? ==> signer.value.keyId != "")
    requires CallsFor(calls, org, chain) != []
    ensures var keys, rows := SeedKeys(c, signer, extra), OrgChain(RunRecords(c, signer, calls), org, chain);
            && rows != []
            && (forall i | 0 <= i < |rows| :: RecordOk(c, keys, rows, i))
            && (AuthorshipProven(c, keys, rows) <==> signer.Some?)
  {
    RunRecordsAreLinear(c, signer, calls);
    RunRecordsKeepCalls(c, signer, calls, org, chain);
    var rows := OrgChain(RunRecords(c, signer, calls), org, chain);
    SealedChainVerifies(c, signer, SeedKeys(c, signer, extra), rows);
    assert Signed(rows[0]) <==> signer.Some?;
  }

  // ------------------------------------------------------------ the tracker

  function Audited(b: DecisionBody): AuditFields {
    AuditFields(b.chainId, b.requestId, b.orgId, b.tenantId, b.decisionType, b.decisionOutcome, b.riskLevel, b.requiresHumanReview, b.processingTimeMs)
  }

  function AuditHash(c: Crypto, b: DecisionBody): string {
    c.sha(AuditText(Audited(b)))
  }

  predicate SameAudited(b: DecisionBody, b': DecisionBody) {
    && b.chainId == b'.chainId && b.requestId == b'.requestId && b.orgId == b'.orgId && b.tenantId == b'.tenantId
    && b.decisionType == b'.decisionType && b.decisionOutcome == b'.decisionOutcome && b.riskLevel == b'.riskLevel
    && b.requiresHumanReview == b'.requiresHumanReview && b.processingTimeMs == b'.processingTimeMs
  }

  /** Two records without a bar in outcome and risk level have one audit hash exactly when they agree on the nine audited fields. */
  lemma AuditHashCoversNineFields(c: Crypto, b: DecisionBody, b': DecisionBody)
    requires c.sha(AuditText(Audited(b))) == c.sha(AuditText(Audited(b'))) ==> AuditText(Audited(b)) == AuditText(Audited(b'))
    requires BarFree(b.decisionOutcome) && BarFree(b.riskLevel)
    ensures AuditHash(c, b) == AuditHash(c, b') <==> SameAudited(b, b')
  {
    AuditTextCommitsIff(Audited(b));
  }

  const NANOS_PER_MICRO := 1000

  /** Rounds a time in nanoseconds down to whole microseconds, which is what the database keeps. */
  function ToMicros(nanos: int): (micros: int)
    ensures micros * NANOS_PER_MICRO <= nanos < (micros + 1) * NANOS_PER_MICRO
  {
    nanos / NANOS_PER_MICRO
  }

  /**
   What RecordDecision makes of an entry before it counts the call. createdAt is the
   caller's time and now the clock, in Unix nanoseconds; newId is a fresh uuid.
   */
  function Complete(c: Crypto, systemId: string, e: DecisionEntry, createdAt: Option<int>, newId: string, now: int): DecisionEntry {
    var b := e.body.(
      id := if e.body.id == "" then newId else e.body.id,
      createdAtMicros := ToMicros(if createdAt.Some? then createdAt.value else now),
      systemId := if e.body.systemId == "" then systemId else e.body.systemId,
      riskLevel := if e.body.riskLevel == "" then "limited" else e.body.riskLevel);
    e.(body := if b.auditHash == "" then b.(auditHash := AuditHash(c, b)) else b)
  }

  /** A field the caller gave is the field stored. */
  predicate KeptIfGiven(given: string, stored: string) {
    given != "" ==> stored == given
  }

  predicate IsCutOf(nanos: int, micros: int) {
    micros * NANOS_PER_MICRO <= nanos < (micros + 1) * NANOS_PER_MICRO
  }

  /** What a stored record owes the entry it was recorded from. */
  predicate Completes(c: Crypto, systemId: string, b: DecisionBody, createdAt: Option<int>, newId: string, now: int, stored: DecisionBody) {
    && KeptIfGiven(b.id, stored.id) && KeptIfGiven(b.systemId, stored.systemId)
    && KeptIfGiven(b.riskLevel, stored.riskLevel) && KeptIfGiven(b.auditHash, stored.auditHash)
    && (b.id == "" ==> stored.id == newId) && (b.systemId == "" ==> stored.systemId == systemId)
    && (b.riskLevel == "" ==> stored.riskLevel == "limited") && (b.auditHash == "" ==> stored.auditHash == AuditHash(c, stored))
    && (createdAt.Some? ==> IsCutOf(createdAt.value, stored.createdAtMicros)) && (createdAt.None? ==> IsCutOf(now, stored.createdAtMicros))
    && stored == b.(id := stored.id, systemId := stored.systemId, riskLevel := stored.riskLevel,
                    auditHash := stored.auditHash, createdAtMicros := stored.createdAtMicros)
  }

  lemma CompleteCompletes(c: Crypto, systemId: string, e: DecisionEntry, createdAt: Option<int>, newId: string, now: int)
    ensures var r := Complete(c, systemId, e, createdAt, newId, now);
            && Completes(c, systemId, e.body, createdAt, newId, now, r.body)
            && r.metadata == e.metadata
  {}

  /** An entry whose defaulted fields are all given is stored as it is, its time cut to microseconds. */
  lemma GivenFieldsAreStored(c: Crypto, systemId: string, b: DecisionBody, createdAt: Option<int>, newId: string, now: int, stored: DecisionBody)
    requires Completes(c, systemId, b, createdAt, newId, now, stored)
    requires b.id != "" && b.systemId != "" && b.riskLevel != "" && b.auditHash != ""
    ensures createdAt.Some? ==> stored == b.(createdAtMicros := ToMicros(createdAt.value))
  {
    if createdAt.Some? {
      CutIsUnique(createdAt.value, stored.createdAtMicros);
    }
  }

  lemma CutIsUnique(nanos: int, micros: int)
    requires IsCutOf(nanos, micros)
    ensures micros == ToMicros(nanos)
  {}

  /** No defaulted field stays blank. */
  lemma NothingStaysBlank(c: Crypto, systemId: string, b: DecisionBody, createdAt: Option<int>, newId: string, now: int, stored: DecisionBody)
    requires Completes(c, systemId, b, createdAt, newId, now, stored)
    requires newId != "" && systemId != "" && forall s :: |c.sha(s)| == 64
    ensures stored.id != "" && stored.systemId != "" && stored.riskLevel != "" && stored.auditHash != ""
  {}

  /** Completing what was completed, with any other id, clock and system id, changes nothing. */
  lemma CompletingTwiceIsOnce(c: Crypto, systemId: string, e: DecisionEntry, createdAt: Option<int>, newId: string, now: int,
                              systemId': string, newId': string, now': int)
    requires newId != "" && systemId != "" && forall s :: |c.sha(s)| == 64
    ensures var r := Complete(c, systemId, e, createdAt, newId, now);
            Complete(c, systemId', r, Some(r.body.createdAtMicros * NANOS_PER_MICRO), newId', now') == r
  {
    var r := Complete(c, systemId, e, createdAt, newId, now);
    var time := r.body.createdAtMicros * NANOS_PER_MICRO;
    var r' := Complete(c, systemId', r, Some(time), newId', now');
    CompleteCompletes(c, systemId, e, createdAt, newId, now);
    NothingStaysBlank(c, systemId, e.body, createdAt, newId, now, r.body);
    CompleteCompletes(c, systemId', r, Some(time), newId', now');
    GivenFieldsAreStored(c, systemId', r.body, Some(time), newId', now', r'.body);
    CutIsUnique(time, r.body.createdAtMicros);
  }

  const KEY_ID_LEN := 16

  /** The first 16 hex digits of the hash of the public key. */
  function DeriveKeyId(c: Crypto, publicKey: string): (id: string)
    requires |c.sha(publicKey)| == 64
    ensures |id| == KEY_ID_LEN && id <= c.sha(publicKey)
  {
    c.sha(publicKey)[..KEY_ID_LEN]
  }

  /** A configured key id is used as it is; a blank one is derived from the public key. */
  function SignerFor(c: Crypto, signingKey: Option<string>, signingKeyId: string): (signer: Option<Signer>)
    requires forall s :: |c.sha(s)| == 64
    ensures signer.Some? <==> signingKey.Some?
    ensures signer.Some? ==> signer.value.key == signingKey.value && (signingKeyId != "" ==> signer.value.keyId == signingKeyId)
    ensures signer.Some? && signingKeyId == "" ==> |signer.value.keyId| == 16 && signer.value.keyId <= c.sha(c.publicKey(signingKey.value))
  {
    match signingKey
    case None => None
    case Some(key) => Some(Signer(key, if signingKeyId == "" then DeriveKeyId(c, c.publicKey(key)) else signingKeyId))
  }

  /** The signing key's own entry of the key table. */
  method OwnKey(c: Crypto, signingKey: Option<string>, signingKeyId: string) returns (signer: Option<Signer>, own: map<string, string>)
    requires forall s :: |c.sha(s)| == 64
    ensures signer == SignerFor(c, signingKey, signingKeyId) && (signer.Some? ==> signer.value.keyId != "")
    ensures own == if signer.Some? then map[signer.value.keyId := c.publicKey(signer.value.key)] else map[]
  {
    if signingKey.None? {
      return None, map[];
    }
    var pub := c.publicKey(signingKey.value);
    var keyId := if signingKeyId == "" then DeriveKeyId(c, pub) else signingKeyId;
    return Some(Signer(signingKey.value, keyId)), map[keyId := pub];
  }

  lemma EmptyStoreOk(c: Crypto, signer: Option<Signer>)
    ensures StoreOk(c, signer, map[])
  {}

  /** Adds the retained keys to the key table; a retained key never replaces one already there. */
  method AddRetainedKeys(own: map<string, string>, extra: map<string, Option<string>>) returns (keys: map<string, string>)
    ensures keys == (map id | id in extra && extra[id].Some? :: extra[id].value) + own
  {
    keys := own;
    var ids := extra.Keys;
    while ids != {}
      invariant ids <= extra.Keys
      invariant forall id :: id in keys <==> id in own || (id in extra && id !in ids && extra[id].Some?)
      invariant forall id | id in keys :: keys[id] == if id in own then own[id] else extra[id].value
      decreases |ids|
    {
      var id :| id in ids;
      if extra[id].Some? && id !in keys {
        keys := keys[id := extra[id].value];
      }
      ids := ids - {id};
    }
  }

  lemma LastOfOrg(c: Crypto, rows: seq<DecisionEntry>, org: string)
    requires rows != [] && rows[|rows| - 1].body.orgId == org && Linear(c, ForOrg(rows, org))
    ensures var mine, last := ForOrg(rows, org), rows[|rows| - 1];
            mine != [] && HashBefore(c, mine, |mine|) == ChainHashOf(c, last) && last.chainSeq == |mine|
  {
    var mine := ForOrg(rows, org);
    assert mine[|mine| - 1] == rows[|rows| - 1];
  }

  /** The backward scan for the last record of an org: what the next record must carry. */
  method FindTail(c: Crypto, existing: seq<DecisionEntry>, org: string) returns (prevHash: string, seqNo: int)
    requires Linear(c, ForOrg(existing, org))
    ensures prevHash == HashBefore(c, ForOrg(existing, org), |ForOrg(existing, org)|)
    ensures seqNo == |ForOrg(existing, org)| + 1
  {
    ghost var mine := ForOrg(existing, org);
    prevHash, seqNo := c.genesis, 1;
    var i := |existing|;
    assert existing[..i] == existing;
    while i > 0
      invariant 0 <= i <= |existing|
      invariant ForOrg(existing[..i], org) == mine
    {
      assert existing[..i][..i - 1] == existing[..i - 1];
      if existing[i - 1].body.orgId == org {
        LastOfOrg(c, existing[..i], org);
        return ChainHashOf(c, existing[i - 1]), existing[i - 1].chainSeq + 1;
      }
      i := i - 1;
    }
  }

  /** The entry's own (org, chain) gained one record, made from the entry, and no other (org, chain) changed. */
  ghost predicate GainedRecord(store: Store, store': Store, c: Crypto, systemId: string, entry: DecisionEntry, createdAt: Option<int>, newId: string, now: int) {
    && (forall org, chain | org != entry.body.orgId || chain != entry.body.chainId ::
          OrgChain(store', org, chain) == OrgChain(store, org, chain))
    && var mine, mine' := OrgChain(store, entry.body.orgId, entry.body.chainId), OrgChain(store', entry.body.orgId, entry.body.chainId);
    && |mine'| == |mine| + 1 && mine'[..|mine|] == mine
    && Completes(c, systemId, entry.body, createdAt, newId, now, mine'[|mine|].body)
    && mine'[|mine|].metadata == entry.metadata
  }

  /** What RecordDecision's new store holds, in terms of the entry alone. */
  lemma RecordedEntryIsStored(c: Crypto, signer: Option<Signer>, systemId: string, store: Store, entry: DecisionEntry, createdAt: Option<int>, newId: string, now: int)
    ensures GainedRecord(store, AppendRecord(c, signer, store, Complete(c, systemId, entry, createdAt, newId, now)), c, systemId, entry, createdAt, newId, now)
  {
    var e := Complete(c, systemId, entry, createdAt, newId, now);
    CompleteCompletes(c, systemId, entry, createdAt, newId, now);
    NextRecordShape(c, signer, store, e);
    forall org, chain {
      AppendRecordEffect(c, signer, store, e, org, chain);
    }
  }

  class DecisionChainTracker {
    const crypto: Crypto
    const signer: Option<Signer>
    const verifyKeys: map<string, string>
    const systemId: string
    var memoryStore: Store
    var decisionsRecorded: nat
    var chainsCreated: nat
    var recordErrors: nat

    ghost predicate Valid()
      reads this
    {
      && StoreOk(crypto, signer, memoryStore)
      && chainsCreated == |memoryStore|
      && (signer.Some? ==> signer.value.keyId != "" && signer.value.keyId in verifyKeys
                           && verifyKeys[signer.value.keyId] == crypto.publicKey(signer.value.key))
    }

    /** signingKeyId is the configured id of the signing key; an empty one is derived from the public key. */
    constructor (c: Crypto, systemId: string, signingKey: Option<string>, signingKeyId: string, extra: map<string, Option<string>>)
      requires forall s :: |c.sha(s)| == 64
      ensures Valid() && crypto == c && signer == SignerFor(c, signingKey, signingKeyId) && verifyKeys == SeedKeys(c, signer, extra)
      ensures memoryStore == map[] && decisionsRecorded == 0 && recordErrors == 0
      ensures this.systemId == if systemId == "" then "axonflow-agent/unknown" else systemId
    {
      crypto := c;
      this.systemId := if systemId == "" then "axonflow-agent/unknown" else systemId;
      var s, own := OwnKey(c, signingKey, signingKeyId);
      var keys := AddRetainedKeys(own, extra);
      signer := s;
      verifyKeys := keys;
      memoryStore := map[];
      decisionsRecorded, chainsCreated, recordErrors := 0, 0, 0;
      EmptyStoreOk(c, s);
    }

    /** Which store the call leaves is spelled out, field by field, by RecordedEntryIsStored. */
    method RecordDecision(entry: DecisionEntry, createdAt: Option<int>, newId: string, now: int) returns (ok: bool)
      requires Valid()
      modifies this
      ensures Valid()
      ensures ok <==> entry.body.orgId != ""
      ensures ok ==> memoryStore == AppendRecord(crypto, signer, old(memoryStore), Complete(crypto, systemId, entry, createdAt, newId, now))
      ensures ok ==> decisionsRecorded == old(decisionsRecorded) + 1 && recordErrors == old(recordErrors)
      ensures !ok ==> memoryStore == old(memoryStore) && decisionsRecorded == old(decisionsRecorded)
                      && recordErrors == old(recordErrors) + 1
    {
      if entry.body.orgId == "" {
        recordErrors := recordErrors + 1;
        return false;
      }
      decisionsRecorded := decisionsRecorded + 1;
      RecordToMemory(Complete(crypto, systemId, entry, createdAt, newId, now));
      return true;
    }

    method RecordToMemory(e: DecisionEntry)
      requires Valid()
      modifies this`memoryStore, this`chainsCreated
      ensures Valid() && memoryStore == AppendRecord(crypto, signer, old(memoryStore), e)
    {
      var existing := Chain(memoryStore, e.body.chainId);
      assert Linear(crypto, OrgChain(memoryStore, e.body.orgId, e.body.chainId));
      var prevHash, seqNo := FindTail(crypto, existing, e.body.orgId);
      AppendKeepsStoreOk(crypto, signer, memoryStore, e);
      assert NextRecord(crypto, signer, memoryStore, e) == Seal(crypto, signer, e, prevHash, seqNo);
      if e.body.chainId !in memoryStore {
        chainsCreated := chainsCreated + 1;
      }
      memoryStore := memoryStore[e.body.chainId := existing + [Seal(crypto, signer, e, prevHash, seqNo)]];
    }

    /** The verifier loop: stops at the first record that fails its link or its signature. */
    method VerifyEntries(orgId: string, chainId: string, rows: seq<DecisionEntry>, now: int) returns (res: ChainVerificationResult)
      ensures res.orgId == orgId && res.chainId == chainId && res.totalRecords == |rows| && res.verifiedAt == now
      ensures signer.None? ==> res.signingKeyId == "" && res.publicKey == ""
      ensures signer.Some? ==> res.signingKeyId == signer.value.keyId && res.publicKey == crypto.encode(crypto.publicKey(signer.value.key))
      ensures res.valid <==> forall i | 0 <= i < |rows| :: RecordOk(crypto, verifyKeys, rows, i)
      ensures res.authorshipProven <==> AuthorshipProven(crypto, verifyKeys, rows)
      ensures res.valid ==>
                && res.linkageValid && res.signaturesValid && res.breakReason == NoBreak
                && res.signedRecords == SignedCount(rows, |rows|) && res.unsignedRecords == |rows| - SignedCount(rows, |rows|)
      ensures !res.valid ==> exists k: nat ::
                IsFirstBreak(crypto, verifyKeys, rows, k) && ReportsBreak(crypto, verifyKeys, rows, k, res)
    {
      var linkageValid, signaturesValid := true, true;
      var signed, unsigned := 0, 0;
      var brokenSeq, brokenId, reason := 0, "", NoBreak;
      var prev := crypto.genesis;
      var i := 0;
      while i < |rows|
        invariant 0 <= i <= |rows| && prev == HashBefore(crypto, rows, i)
        invariant forall j {:trigger RecordOk(crypto, verifyKeys, rows, j)} | 0 <= j < i :: RecordOk(crypto, verifyKeys, rows, j)
        invariant signed == SignedCount(rows, i) && unsigned == i - signed
        invariant linkageValid && signaturesValid && reason == NoBreak
      {
        var e := rows[i];
        if e.prevHash != prev {
          linkageValid, brokenSeq, brokenId, reason := false, e.chainSeq, e.body.id, LinkageBreak;
          break;
        }
        var digest := RecordDigest(crypto, e);
        var chainHash := ComputeChainHash(crypto, digest, e.prevHash);
        assert chainHash == ChainHashOf(crypto, e) && LinkOk(crypto, rows, i);
        if e.signingKeyId == "" || e.recordSignature == "" {
          unsigned := unsigned + 1;
        } else {
          signed := signed + 1;
          var check := CheckSignature(crypto, verifyKeys, e, chainHash);
          if !check.Verified? {
            signaturesValid, brokenSeq, brokenId, reason := false, e.chainSeq, e.body.id, SignatureBreak(check);
            break;
          }
        }
        assert RecordOk(crypto, verifyKeys, rows, i);
        prev := chainHash;
        i := i + 1;
      }
      AllSignedIffCounted(rows, |rows|);
      var valid := linkageValid && signaturesValid && reason == NoBreak;
      res := ChainVerificationResult(chainId, orgId, |rows|, valid, valid && |rows| > 0 && signed == |rows|,
                                     linkageValid, signaturesValid, signed, unsigned, brokenSeq, brokenId, reason,
                                     if signer.Some? then signer.value.keyId else "",
                                     if signer.Some? then crypto.encode(crypto.publicKey(signer.value.key)) else "", now);
      if !valid {
        assert IsFirstBreak(crypto, verifyKeys, rows, i) && ReportsBreak(crypto, verifyKeys, rows, i, res);
      }
    }

    /** VerifyChain in memory mode; no result for an empty org id or a chain without visible records. */
    method VerifyChain(orgId: string, chainId: string, now: int) returns (res: Option<ChainVerificationResult>)
      requires Valid() && SignsCorrectly(crypto)
      ensures res.Some? <==> orgId != "" && OrgChain(memoryStore, orgId, chainId) != []
      ensures res.Some? ==>
                && res.value.valid && (res.value.authorshipProven <==> signer.Some?)
                && res.value.totalRecords == |OrgChain(memoryStore, orgId, chainId)|
    {
      if orgId == "" {
        return None;
      }
      var rows := MemoryChainForOrg(orgId, chainId);
      if rows == [] {
        return None;
      }
      var r := VerifyEntries(orgId, chainId, rows, now);
      SealedChainVerifies(crypto, signer, verifyKeys, rows);
      assert Signed(rows[0]) <==> signer.Some?;
      return Some(r);
    }

    method MemoryChainForOrg(orgId: string, chainId: string) returns (out: seq<DecisionEntry>)
      ensures out == OrgChain(memoryStore, orgId, chainId)
    {
      out := [];
      var rows := if chainId in memoryStore then memoryStore[chainId] else [];
      for i := 0 to |rows|
        invariant out == ForOrg(rows[..i], orgId)
      {
        assert rows[..i + 1][..i] == rows[..i];
        if rows[i].body.orgId == orgId {
          out := out + [rows[i]];
        }
      }
      assert rows[..|rows|] == rows;
    }
  }
}
