/**
 What authorship_proven is worth: a presented list that earns it is the committed
 chain up to truncation, up to one signed record that was rolled back.
 */
module TamperEvidence {
  import opened Wrappers
  import opened DigestEncoding
  import opened DecisionRecord
  import opened DecisionChain

  // ------------------------------------------------------------- hypotheses

  /** The text whose hash is the chain-hash of e. */
  function LinkInput(c: Crypto, e: DecisionEntry): string {
    RecordDigest(c, e) + "|" + e.prevHash
  }

  /** The texts hashed for a and for b are not a SHA-256 collision. */
  predicate NoCollision(c: Crypto, a: DecisionEntry, b: DecisionEntry) {
    && (c.sha(Preimage(a.body, a.chainSeq)) == c.sha(Preimage(b.body, b.chainSeq)) ==>
          Preimage(a.body, a.chainSeq) == Preimage(b.body, b.chainSeq))
    && (c.sha(LinkInput(c, a)) == c.sha(LinkInput(c, b)) ==> LinkInput(c, a) == LinkInput(c, b))
  }

  /** SHA-256 as used here: digests of one length, of the pre-images. */
  ghost predicate HashesRecords(c: Crypto) {
    HashesPreimages(c) && forall s :: |c.sha(s)| == 64
  }

  /** No collision between a presented record and a sealed one or between two sealed ones, and no digest is the sentinel. */
  ghost predicate Collisionless(c: Crypto, presented: seq<DecisionEntry>, sealedRecords: set<DecisionEntry>) {
    && (forall a, b {:trigger NoCollision(c, a, b)} | a in sealedRecords && (b in sealedRecords || b in presented) :: NoCollision(c, a, b))
    && (forall a | a in sealedRecords :: ChainHashOf(c, a) != c.genesis)
  }

  /** The record names a known key and carries the encoding of a signature that this key accepts for its chain-hash. */
  predicate CarriesGoodSignature(c: Crypto, keys: map<string, string>, e: DecisionEntry) {
    && e.signingKeyId in keys && c.decode(e.recordSignature).Some?
    && c.verify(keys[e.signingKeyId], ChainHashOf(c, e), c.decode(e.recordSignature).value)
  }

  /** Every good signature presented covers a chain-hash the tracker signed. */
  ghost predicate Unforged(c: Crypto, keys: map<string, string>, presented: seq<DecisionEntry>, sealedRecords: set<DecisionEntry>) {
    forall i | 0 <= i < |presented| && CarriesGoodSignature(c, keys, presented[i]) ::
      exists r :: r in sealedRecords && ChainHashOf(c, r) == ChainHashOf(c, presented[i])
  }

  predicate Belongs(e: DecisionEntry, org: string, chain: string) {
    e.body.orgId == org && e.body.chainId == chain
  }

  /** The record took the position after some prefix of the rows. */
  predicate FollowsPrefix(c: Crypto, rows: seq<DecisionEntry>, r: DecisionEntry) {
    1 <= r.chainSeq <= |rows| + 1 && r.prevHash == HashBefore(c, rows, r.chainSeq - 1)
  }

  /**
   What honest recording leaves behind for one (org, chain): the committed rows are
   a linear chain, and every record ever sealed for it, committed or rolled back,
   took the position after some committed prefix.
   */
  ghost predicate History(c: Crypto, rows: seq<DecisionEntry>, sealedRecords: set<DecisionEntry>, org: string, chain: string) {
    && Linear(c, rows)
    && (forall i | 0 <= i < |rows| :: rows[i] in sealedRecords && Belongs(rows[i], org, chain))
    && (forall r {:trigger FollowsPrefix(c, rows, r)} | r in sealedRecords && Belongs(r, org, chain) :: FollowsPrefix(c, rows, r))
  }

  ghost predicate CleanRecords(sealedRecords: set<DecisionEntry>) {
    forall r | r in sealedRecords :: CleanLists(r.body)
  }

  /** Agreement on everything the digest and the link commit to. */
  predicate SameRecord(a: DecisionEntry, b: DecisionEntry) {
    a.body == b.body && a.chainSeq == b.chainSeq && a.prevHash == b.prevHash
  }

  /**
   A list that its reader accepts as chain (org, chain), made without a collision and
   without a signature the tracker never gave.
   */
  ghost predicate GoesUnseen(c: Crypto, keys: map<string, string>, sealedRecords: set<DecisionEntry>, org: string, chain: string,
                             presented: seq<DecisionEntry>) {
    && AuthorshipProven(c, keys, presented) && (forall i | 0 <= i < |presented| :: Belongs(presented[i], org, chain))
    && Collisionless(c, presented, sealedRecords) && Unforged(c, keys, presented, sealedRecords)
  }

  // --------------------------------------------------------- tamper evidence

  lemma SplitLink(d: string, p: string, d': string, p': string)
    requires |d| == |d'| && d + "|" + p == d' + "|" + p'
    ensures d == d' && p == p'
  {
    var s, s' := d + "|" + p, d' + "|" + p';
    assert s[..|d|] == d && s'[..|d|] == d';
    assert s[|d| + 1..] == p && s'[|d| + 1..] == p';
  }

  /** The chain-hash pins down position, predecessor and every digested field. */
  lemma ChainHashCommits(c: Crypto, a: DecisionEntry, b: DecisionEntry)
    requires HashesRecords(c) && NoCollision(c, a, b) && CleanLists(a.body)
    requires ChainHashOf(c, a) == ChainHashOf(c, b)
    ensures SameRecord(a, b)
  {
    assert DigestIsHash(c, a.body, a.chainSeq) && DigestIsHash(c, b.body, b.chainSeq);
    SplitLink(RecordDigest(c, a), a.prevHash, RecordDigest(c, b), b.prevHash);
    PreimageIsInjectiveAt(a.body, a.chainSeq, b.body, b.chainSeq);
  }

  /** Each presented record is one the tracker sealed for this chain. */
  lemma PresentedWasSealed(c: Crypto, keys: map<string, string>, presented: seq<DecisionEntry>,
                           sealedRecords: set<DecisionEntry>, i: nat) returns (r: DecisionEntry)
    requires HashesRecords(c) && CleanRecords(sealedRecords) && Collisionless(c, presented, sealedRecords)
    requires AuthorshipProven(c, keys, presented) && Unforged(c, keys, presented, sealedRecords)
    requires i < |presented|
    ensures r in sealedRecords && SameRecord(r, presented[i])
  {
    assert RecordOk(c, keys, presented, i);
    r :| r in sealedRecords && ChainHashOf(c, r) == ChainHashOf(c, presented[i]);
    assert NoCollision(c, r, presented[i]);
    ChainHashCommits(c, r, presented[i]);
  }

  /** Step: a presented record that has a successor is the committed record at its index. */
  lemma SuccessorPins(c: Crypto, rows: seq<DecisionEntry>, sealedRecords: set<DecisionEntry>, org: string, chain: string,
                      presented: seq<DecisionEntry>, i: nat, r: DecisionEntry, next: DecisionEntry)
    requires HashesRecords(c) && CleanRecords(sealedRecords) && Collisionless(c, presented, sealedRecords)
    requires History(c, rows, sealedRecords, org, chain)
    requires i + 1 < |presented| && LinkOk(c, presented, i + 1)
    requires r in sealedRecords && SameRecord(r, presented[i])
    requires next in sealedRecords && Belongs(next, org, chain) && SameRecord(next, presented[i + 1])
    ensures 1 <= r.chainSeq <= |rows| && SameRecord(rows[r.chainSeq - 1], r) && next.chainSeq == r.chainSeq + 1
  {
    assert FollowsPrefix(c, rows, next);
    var k := next.chainSeq - 1;
    assert ChainHashOf(c, presented[i]) == ChainHashOf(c, r);
    assert HashBefore(c, rows, k) == ChainHashOf(c, r);
    assert k > 0;
    assert NoCollision(c, rows[k - 1], r);
    ChainHashCommits(c, rows[k - 1], r);
  }

  lemma GenesisPins(c: Crypto, rows: seq<DecisionEntry>, sealedRecords: set<DecisionEntry>, org: string, chain: string, r: DecisionEntry)
    requires History(c, rows, sealedRecords, org, chain)
    requires forall a | a in sealedRecords :: ChainHashOf(c, a) != c.genesis
    requires r in sealedRecords && Belongs(r, org, chain) && r.prevHash == c.genesis
    ensures r.chainSeq == 1
  {
    assert FollowsPrefix(c, rows, r);
  }

  /** Each presented record beside the sealed one it agrees with. */
  predicate Matched(presented: seq<DecisionEntry>, sealedRecords: set<DecisionEntry>, found: seq<DecisionEntry>) {
    |found| == |presented| && forall i | 0 <= i < |presented| :: found[i] in sealedRecords && SameRecord(found[i], presented[i])
  }

  lemma MatchPresented(c: Crypto, keys: map<string, string>, presented: seq<DecisionEntry>, sealedRecords: set<DecisionEntry>)
    returns (found: seq<DecisionEntry>)
    requires HashesRecords(c) && CleanRecords(sealedRecords) && Collisionless(c, presented, sealedRecords)
    requires AuthorshipProven(c, keys, presented) && Unforged(c, keys, presented, sealedRecords)
    ensures Matched(presented, sealedRecords, found)
  {
    found := [];
    while |found| < |presented|
      invariant |found| <= |presented|
      invariant forall i | 0 <= i < |found| :: found[i] in sealedRecords && SameRecord(found[i], presented[i])
    {
      var r := PresentedWasSealed(c, keys, presented, sealedRecords, |found|);
      found := found + [r];
    }
  }

  predicate Linked(c: Crypto, presented: seq<DecisionEntry>) {
    forall i {:trigger LinkOk(c, presented, i)} | 0 <= i < |presented| :: LinkOk(c, presented, i)
  }

  /** The first n presented records are the first n committed ones. */
  predicate Follows(presented: seq<DecisionEntry>, rows: seq<DecisionEntry>, n: nat) {
    n <= |rows| && n <= |presented| && forall i | 0 <= i < n :: SameRecord(presented[i], rows[i])
  }

  /** Position by position, a linked list of sealed records follows the committed chain up to its last record. */
  lemma {:induction false} MatchedFollows(c: Crypto, rows: seq<DecisionEntry>, sealedRecords: set<DecisionEntry>, org: string, chain: string,
                                          presented: seq<DecisionEntry>, found: seq<DecisionEntry>, n: nat)
    requires HashesRecords(c) && CleanRecords(sealedRecords) && Collisionless(c, presented, sealedRecords)
    requires History(c, rows, sealedRecords, org, chain) && Linked(c, presented) && Matched(presented, sealedRecords, found)
    requires forall i | 0 <= i < |presented| :: Belongs(presented[i], org, chain)
    requires n < |presented|
    ensures Follows(presented, rows, n) && found[n].chainSeq == n + 1
  {
    assert LinkOk(c, presented, n);
    if n == 0 {
      GenesisPins(c, rows, sealedRecords, org, chain, found[0]);
    } else {
      MatchedFollows(c, rows, sealedRecords, org, chain, presented, found, n - 1);
      SuccessorPins(c, rows, sealedRecords, org, chain, presented, n - 1, found[n - 1], found[n]);
    }
  }

  lemma AcceptedIsLinked(c: Crypto, keys: map<string, string>, presented: seq<DecisionEntry>)
    requires AuthorshipProven(c, keys, presented)
    ensures Linked(c, presented)
  {
    forall i | 0 <= i < |presented| ensures LinkOk(c, presented, i) {
      assert RecordOk(c, keys, presented, i);
    }
  }

  /**
   A list shown as chain (org, chain) that earns authorship_proven agrees with the
   committed chain in every record but its last, and its last record is one the
   tracker sealed for exactly that position.
   */
  lemma AcceptedFollowsCommitted(
      c: Crypto, keys: map<string, string>, rows: seq<DecisionEntry>, sealedRecords: set<DecisionEntry>,
      org: string, chain: string, presented: seq<DecisionEntry>) returns (last: DecisionEntry)
    requires HashesRecords(c) && CleanRecords(sealedRecords) && History(c, rows, sealedRecords, org, chain)
    requires GoesUnseen(c, keys, sealedRecords, org, chain, presented)
    ensures Follows(presented, rows, |presented| - 1)
    ensures last in sealedRecords && SameRecord(last, presented[|presented| - 1]) && last.chainSeq == |presented|
  {
    AcceptedIsLinked(c, keys, presented);
    var found := MatchPresented(c, keys, presented, sealedRecords);
    MatchedFollows(c, rows, sealedRecords, org, chain, presented, found, |presented| - 1);
    last := found[|presented| - 1];
  }

  predicate IsCommitted(rows: seq<DecisionEntry>, r: DecisionEntry) {
    exists k :: 0 <= k < |rows| && SameRecord(rows[k], r)
  }

  /** Every sealed record of the chain was committed. */
  ghost predicate NothingRolledBack(rows: seq<DecisionEntry>, sealedRecords: set<DecisionEntry>, org: string, chain: string) {
    forall r {:trigger IsCommitted(rows, r)} | r in sealedRecords && Belongs(r, org, chain) :: IsCommitted(rows, r)
  }

  predicate IsPrefixOf(presented: seq<DecisionEntry>, rows: seq<DecisionEntry>) {
    |presented| <= |rows| && forall i | 0 <= i < |presented| :: SameRecord(presented[i], rows[i])
  }

  lemma CommittedAtItsPosition(c: Crypto, rows: seq<DecisionEntry>, r: DecisionEntry)
    requires Linear(c, rows) && IsCommitted(rows, r)
    ensures 1 <= r.chainSeq <= |rows| && SameRecord(rows[r.chainSeq - 1], r)
  {
    var k :| 0 <= k < |rows| && SameRecord(rows[k], r);
    assert rows[k].chainSeq == k + 1;
  }

  /** Where no signed record was rolled back, only suffix truncation goes unseen. */
  lemma OnlyTruncationGoesUnseen(
      c: Crypto, keys: map<string, string>, rows: seq<DecisionEntry>, sealedRecords: set<DecisionEntry>,
      org: string, chain: string, presented: seq<DecisionEntry>)
    requires HashesRecords(c) && CleanRecords(sealedRecords) && History(c, rows, sealedRecords, org, chain)
    requires NothingRolledBack(rows, sealedRecords, org, chain)
    requires GoesUnseen(c, keys, sealedRecords, org, chain, presented)
    ensures IsPrefixOf(presented, rows)
  {
    var last := AcceptedFollowsCommitted(c, keys, rows, sealedRecords, org, chain, presented);
    assert IsCommitted(rows, last);
    CommittedAtItsPosition(c, rows, last);
  }

  // ---------------------------------------------------------- what goes unseen

  lemma ShownLink(c: Crypto, rows: seq<DecisionEntry>, r: DecisionEntry, i: nat)
    requires Linear(c, rows) && FollowsPrefix(c, rows, r) && i < r.chainSeq
    ensures LinkOk(c, rows[..r.chainSeq - 1] + [r], i)
  {
    var k := r.chainSeq - 1;
    var shown := rows[..k] + [r];
    assert HashBefore(c, shown, i) == HashBefore(c, rows, i);
    if i < k {
      assert LinkOk(c, rows, i);
    }
  }

  /** The record was signed with a key whose public half is in the table under its id. */
  ghost predicate SignedByKnown(c: Crypto, keys: map<string, string>, r: DecisionEntry) {
    exists signer: Signer :: KnownSeal(c, keys, r, signer)
  }

  predicate KnownSeal(c: Crypto, keys: map<string, string>, r: DecisionEntry, signer: Signer) {
    && signer.keyId != "" && signer.keyId in keys && keys[signer.keyId] == c.publicKey(signer.key)
    && r == Seal(c, Some(signer), r, r.prevHash, r.chainSeq)
  }

  lemma KnownSealChecks(c: Crypto, keys: map<string, string>, r: DecisionEntry)
    requires SignsCorrectly(c) && SignedByKnown(c, keys, r)
    ensures Signed(r) && SignatureOk(c, keys, r)
  {
    var signer :| KnownSeal(c, keys, r, signer);
    SealVerifies(c, signer, keys, r);
  }

  /** Truncation, and one rolled-back record in place of the tail, do earn authorship_proven. */
  lemma TruncationOrRollbackIsAccepted(
      c: Crypto, keys: map<string, string>, rows: seq<DecisionEntry>, sealedRecords: set<DecisionEntry>,
      org: string, chain: string, r: DecisionEntry)
    requires SignsCorrectly(c) && forall s | s in sealedRecords :: SignedByKnown(c, keys, s)
    requires History(c, rows, sealedRecords, org, chain)
    requires r in sealedRecords && Belongs(r, org, chain)
    ensures 1 <= r.chainSeq <= |rows| + 1 && AuthorshipProven(c, keys, rows[..r.chainSeq - 1] + [r])
    ensures IsPrefixOf(rows[..r.chainSeq - 1] + [r], rows) <==> IsCommitted(rows, r)
  {
    assert FollowsPrefix(c, rows, r);
    var shown := rows[..r.chainSeq - 1] + [r];
    forall i | 0 <= i < |shown| ensures Signed(shown[i]) && RecordOk(c, keys, shown, i) {
      assert shown[i] in sealedRecords;
      KnownSealChecks(c, keys, shown[i]);
      ShownLink(c, rows, r, i);
    }
    PrefixIffCommitted(c, rows, r);
  }

  lemma PrefixIffCommitted(c: Crypto, rows: seq<DecisionEntry>, r: DecisionEntry)
    requires Linear(c, rows) && 1 <= r.chainSeq <= |rows| + 1
    ensures IsPrefixOf(rows[..r.chainSeq - 1] + [r], rows) <==> IsCommitted(rows, r)
  {
    var k := r.chainSeq - 1;
    var shown := rows[..k] + [r];
    assert shown[k] == r;
    if IsCommitted(rows, r) {
      CommittedAtItsPosition(c, rows, r);
    }
  }

  /** Only truncation goes unseen: every such list is a prefix of the committed rows. */
  ghost predicate OnlyPrefixesGoUnseen(c: Crypto, keys: map<string, string>, rows: seq<DecisionEntry>, sealedRecords: set<DecisionEntry>,
                                       org: string, chain: string) {
    forall presented {:trigger GoesUnseen(c, keys, sealedRecords, org, chain, presented)} |
      GoesUnseen(c, keys, sealedRecords, org, chain, presented) :: IsPrefixOf(presented, rows)
  }

  /** A list of sealed records needs no collision and no forgery. */
  lemma SealedListsAreFair(c: Crypto, keys: map<string, string>, sealedRecords: set<DecisionEntry>, presented: seq<DecisionEntry>)
    requires Collisionless(c, [], sealedRecords) && forall i | 0 <= i < |presented| :: presented[i] in sealedRecords
    ensures Collisionless(c, presented, sealedRecords) && Unforged(c, keys, presented, sealedRecords)
  {
    forall a, b | a in sealedRecords && (b in sealedRecords || b in presented) ensures NoCollision(c, a, b) {
      assert b in sealedRecords;
    }
  }

  lemma RolledBackGoesUnseen(c: Crypto, keys: map<string, string>, rows: seq<DecisionEntry>, sealedRecords: set<DecisionEntry>,
                             org: string, chain: string, r: DecisionEntry) returns (shown: seq<DecisionEntry>)
    requires SignsCorrectly(c) && (forall s | s in sealedRecords :: SignedByKnown(c, keys, s))
    requires History(c, rows, sealedRecords, org, chain) && Collisionless(c, [], sealedRecords)
    requires r in sealedRecords && Belongs(r, org, chain) && !IsCommitted(rows, r)
    ensures GoesUnseen(c, keys, sealedRecords, org, chain, shown) && !IsPrefixOf(shown, rows)
  {
    TruncationOrRollbackIsAccepted(c, keys, rows, sealedRecords, org, chain, r);
    shown := rows[..r.chainSeq - 1] + [r];
    SealedListsAreFair(c, keys, sealedRecords, shown);
  }

  /** The header's claim holds exactly when every record sealed for the chain was committed. */
  lemma OnlyPrefixesIffNothingRolledBack(c: Crypto, keys: map<string, string>, rows: seq<DecisionEntry>, sealedRecords: set<DecisionEntry>,
                                         org: string, chain: string)
    requires HashesRecords(c) && SignsCorrectly(c) && CleanRecords(sealedRecords) && Collisionless(c, [], sealedRecords)
    requires forall s | s in sealedRecords :: SignedByKnown(c, keys, s)
    requires History(c, rows, sealedRecords, org, chain)
    ensures OnlyPrefixesGoUnseen(c, keys, rows, sealedRecords, org, chain) <==> NothingRolledBack(rows, sealedRecords, org, chain)
  {
    if NothingRolledBack(rows, sealedRecords, org, chain) {
      forall presented | GoesUnseen(c, keys, sealedRecords, org, chain, presented) ensures IsPrefixOf(presented, rows) {
        OnlyTruncationGoesUnseen(c, keys, rows, sealedRecords, org, chain, presented);
      }
    } else {
      var r :| r in sealedRecords && Belongs(r, org, chain) && !IsCommitted(rows, r);
      var shown := RolledBackGoesUnseen(c, keys, rows, sealedRecords, org, chain, r);
    }
  }

  lemma SameDigestSameHash(c: Crypto, e: DecisionEntry, b': DecisionBody)
    requires HashesPreimages(c) && Preimage(b', e.chainSeq) == Preimage(e.body, e.chainSeq)
    ensures ChainHashOf(c, e.(body := b')) == ChainHashOf(c, e)
  {
    assert DigestIsHash(c, b', e.chainSeq) && DigestIsHash(c, e.body, e.chainSeq);
  }

  /**
   The condition on list items is needed: whenever an accepted chain holds a record
   whose lists are not clean, that record can be replaced by a different one and the
   chain still earns authorship_proven.
   */
  lemma UncleanRecordCanBeAltered(c: Crypto, keys: map<string, string>, rows: seq<DecisionEntry>, k: nat) returns (altered: seq<DecisionEntry>)
    requires HashesPreimages(c) && AuthorshipProven(c, keys, rows)
    requires k < |rows| && !CleanLists(rows[k].body)
    ensures |altered| == |rows| && altered[k].body != rows[k].body && AuthorshipProven(c, keys, altered)
    ensures forall i | 0 <= i < |rows| :: altered[i].body.orgId == rows[i].body.orgId && altered[i].body.chainId == rows[i].body.chainId
  {
    var b' := TwinRecord(rows[k].body, rows[k].chainSeq);
    altered := rows[k := rows[k].(body := b')];
    SameDigestSameHash(c, rows[k], b');
    forall i | 0 <= i < |rows| ensures RecordOk(c, keys, altered, i) {
      assert RecordOk(c, keys, rows, i);
      assert ChainHashOf(c, altered[i]) == ChainHashOf(c, rows[i]);
      assert HashBefore(c, altered, i) == HashBefore(c, rows, i);
    }
  }
}
