/** Hash chain, sealing and the meaning of verification, as pure functions of a record. */
module DecisionChain {
  import opened Wrappers
  import opened DecisionRecord

  /**
   The primitives the program calls: hex SHA-256, the record digest built on it,
   Ed25519 (section 5.1 of RFC 8032) and standard base64, as arbitrary functions.
   Facts about them appear below as hypotheses of the lemmas that need them.
   genesis is the prev_hash of every first record: 64 zeros in the program, any
   string here.
   */
  datatype Crypto = Crypto(
    genesis: string,
    sha: string -> string,
    digest: (DecisionBody, int) -> string,
    publicKey: string -> string,
    sign: (string, string) -> string,
    verify: (string, string, string) -> bool,
    encode: string -> string,
    decode: string -> Option<string>)

  predicate DigestIsHash(c: Crypto, b: DecisionBody, n: int) {
    c.digest(b, n) == c.sha(Preimage(b, n))
  }

  /** computeRecordDigest: the digest is the hash of the pre-image. */
  ghost predicate HashesPreimages(c: Crypto) {
    forall b, n {:trigger DigestIsHash(c, b, n)} :: DigestIsHash(c, b, n)
  }

  /** What signing and base64 promise to a holder of the right key. */
  ghost predicate SignsCorrectly(c: Crypto) {
    && (forall key, message :: c.verify(c.publicKey(key), message, c.sign(key, message)))
    && (forall s :: c.decode(c.encode(s)) == Some(s))
    && (forall key, message :: c.encode(c.sign(key, message)) != "")
  }

  datatype DecisionEntry = DecisionEntry(
    body: DecisionBody,
    metadata: string,
    chainSeq: int,
    prevHash: string,
    recordSignature: string,
    signingKeyId: string)

  /** A private key and the id advertised on records signed with it. */
  datatype Signer = Signer(key: string, keyId: string)

  function RecordDigest(c: Crypto, e: DecisionEntry): string {
    c.digest(e.body, e.chainSeq)
  }

  function ComputeChainHash(c: Crypto, digest: string, prevHash: string): string {
    c.sha(digest + "|" + prevHash)
  }

  function ChainHashOf(c: Crypto, e: DecisionEntry): string {
    ComputeChainHash(c, RecordDigest(c, e), e.prevHash)
  }

  /** sealEntry: the record with its chain position and, given a key, its signature. */
  function Seal(c: Crypto, signer: Option<Signer>, e: DecisionEntry, prevHash: string, chainSeq: int): DecisionEntry {
    var placed := e.(prevHash := prevHash, chainSeq := chainSeq);
    match signer
    case None => placed.(recordSignature := "", signingKeyId := "")
    case Some(s) =>
      placed.(recordSignature := c.encode(c.sign(s.key, ChainHashOf(c, placed))), signingKeyId := s.keyId)
  }

  /** The prev_hash that the record at position k of a chain must carry. */
  function HashBefore(c: Crypto, rows: seq<DecisionEntry>, k: nat): string
    requires k <= |rows|
  {
    if k == 0 then c.genesis else ChainHashOf(c, rows[k - 1])
  }

  // ------------------------------------------------------------ verification

  predicate Signed(e: DecisionEntry) {
    e.signingKeyId != "" && e.recordSignature != ""
  }

  datatype SignatureCheck = Verified | NoPublicKey | NotBase64 | DoesNotVerify

  function CheckSignature(c: Crypto, keys: map<string, string>, e: DecisionEntry, chainHash: string): SignatureCheck {
    if e.signingKeyId !in keys then NoPublicKey
    else
      match c.decode(e.recordSignature)
      case None => NotBase64
      case Some(sig) => if c.verify(keys[e.signingKeyId], chainHash, sig) then Verified else DoesNotVerify
  }

  /** The record at i points at its predecessor's chain-hash. */
  predicate LinkOk(c: Crypto, rows: seq<DecisionEntry>, i: nat)
    requires i < |rows|
  {
    rows[i].prevHash == HashBefore(c, rows, i)
  }

  /** A record that carries a signature carries one that verifies over its own chain-hash. */
  predicate SignatureOk(c: Crypto, keys: map<string, string>, e: DecisionEntry) {
    Signed(e) ==> CheckSignature(c, keys, e, ChainHashOf(c, e)).Verified?
  }

  predicate RecordOk(c: Crypto, keys: map<string, string>, rows: seq<DecisionEntry>, i: nat)
    requires i < |rows|
  {
    LinkOk(c, rows, i) && SignatureOk(c, keys, rows[i])
  }

  /** What authorship_proven is documented to claim: every record signed, every signature and link good. */
  predicate AuthorshipProven(c: Crypto, keys: map<string, string>, rows: seq<DecisionEntry>) {
    && rows != []
    && (forall i | 0 <= i < |rows| :: Signed(rows[i]))
    && forall i {:trigger RecordOk(c, keys, rows, i)} | 0 <= i < |rows| :: RecordOk(c, keys, rows, i)
  }

  /** How many of the first n records are signed. */
  function SignedCount(rows: seq<DecisionEntry>, n: nat): (k: nat)
    requires n <= |rows|
    ensures k <= n
  {
    if n == 0 then 0 else SignedCount(rows, n - 1) + (if Signed(rows[n - 1]) then 1 else 0)
  }

  lemma {:induction false} AllSignedIffCounted(rows: seq<DecisionEntry>, n: nat)
    requires n <= |rows|
    ensures SignedCount(rows, n) == n <==> forall i | 0 <= i < n :: Signed(rows[i])
  {
    if n > 0 {
      AllSignedIffCounted(rows, n - 1);
    }
  }

  /** A chain as honest recording leaves it: positions 1..n, each linked to the one before. */
  predicate Linear(c: Crypto, rows: seq<DecisionEntry>) {
    && (forall i {:trigger LinkOk(c, rows, i)} | 0 <= i < |rows| :: LinkOk(c, rows, i))
    && forall i | 0 <= i < |rows| :: rows[i].chainSeq == i + 1
  }

  /** Extending a linear chain at its tail keeps it linear. */
  lemma LinearExtend(c: Crypto, rows: seq<DecisionEntry>, r: DecisionEntry)
    requires Linear(c, rows) && r.prevHash == HashBefore(c, rows, |rows|) && r.chainSeq == |rows| + 1
    ensures Linear(c, rows + [r])
  {
    var rows' := rows + [r];
    forall i | 0 <= i < |rows'| ensures LinkOk(c, rows', i) {
      assert i < |rows| ==> LinkOk(c, rows, i);
    }
  }

  /** Every record was sealed under the signer of its position. */
  predicate SealedUnder(c: Crypto, signers: seq<Option<Signer>>, rows: seq<DecisionEntry>) {
    && |signers| == |rows|
    && forall i | 0 <= i < |rows| :: rows[i] == Seal(c, signers[i], rows[i], rows[i].prevHash, rows[i].chainSeq)
  }

  lemma SealIsStable(c: Crypto, signer: Option<Signer>, e: DecisionEntry, prevHash: string, chainSeq: int)
    ensures var r := Seal(c, signer, e, prevHash, chainSeq);
            && r == Seal(c, signer, r, r.prevHash, r.chainSeq)
            && ChainHashOf(c, r) == ChainHashOf(c, e.(prevHash := prevHash, chainSeq := chainSeq))
            && r.body == e.body && r.metadata == e.metadata && r.prevHash == prevHash && r.chainSeq == chainSeq
            && (signer.None? ==> r.recordSignature == "" && r.signingKeyId == "")
            && (signer.Some? ==> r.signingKeyId == signer.value.keyId)
  {}

  /** The signature made by sealing verifies under the public half of the sealing key. */
  lemma SealVerifies(c: Crypto, signer: Signer, keys: map<string, string>, r: DecisionEntry)
    requires SignsCorrectly(c) && signer.keyId != ""
    requires r == Seal(c, Some(signer), r, r.prevHash, r.chainSeq)
    requires signer.keyId in keys ==> keys[signer.keyId] == c.publicKey(signer.key)
    ensures Signed(r)
    ensures CheckSignature(c, keys, r, ChainHashOf(c, r)) == (if signer.keyId in keys then Verified else NoPublicKey)
  {
    var placed := r.(prevHash := r.prevHash, chainSeq := r.chainSeq);
    assert ChainHashOf(c, placed) == ChainHashOf(c, r);
  }

  predicate KeysMatch(c: Crypto, keys: map<string, string>, signers: seq<Option<Signer>>) {
    forall i | 0 <= i < |signers| && signers[i].Some? ::
      && signers[i].value.keyId != ""
      && (signers[i].value.keyId in keys ==> keys[signers[i].value.keyId] == c.publicKey(signers[i].value.key))
  }

  /**
   Key rotation: in a chain recorded under any succession of keys, a record checks
   exactly when it is unsigned or its key is retained, so the first break is the
   first record whose key was dropped.
   */
  lemma RotatedChainBreaksAtDroppedKey(
      c: Crypto, keys: map<string, string>, signers: seq<Option<Signer>>, rows: seq<DecisionEntry>, i: nat)
    requires SignsCorrectly(c) && Linear(c, rows) && SealedUnder(c, signers, rows) && KeysMatch(c, keys, signers)
    requires i < |rows|
    ensures RecordOk(c, keys, rows, i) <==> signers[i].None? || signers[i].value.keyId in keys
    ensures Signed(rows[i]) <==> signers[i].Some?
  {
    if signers[i].Some? {
      SealVerifies(c, signers[i].value, keys, rows[i]);
    }
  }

  /** The record without its key id or without its signature. */
  predicate IsStripped(e: DecisionEntry, e': DecisionEntry) {
    e' == e.(signingKeyId := "") || e' == e.(recordSignature := "")
  }

  /**
   Stripping a signature breaks no link and no other record, and excuses the record from its
   own signature check: what shows it is that authorship is no longer proven.
   */
  lemma StrippingCostsOnlyAuthorship(c: Crypto, keys: map<string, string>, rows: seq<DecisionEntry>, k: nat, e': DecisionEntry)
    requires k < |rows| && IsStripped(rows[k], e')
    ensures var rows' := rows[k := e'];
            && (forall i {:trigger RecordOk(c, keys, rows, i)} {:trigger RecordOk(c, keys, rows', i)} | 0 <= i < |rows| && i != k ::
                  RecordOk(c, keys, rows', i) <==> RecordOk(c, keys, rows, i))
            && (RecordOk(c, keys, rows', k) <==> LinkOk(c, rows, k))
            && !AuthorshipProven(c, keys, rows')
  {
    var rows' := rows[k := e'];
    assert ChainHashOf(c, e') == ChainHashOf(c, rows[k]);
    assert forall i | 0 <= i < |rows| :: LinkOk(c, rows', i) <==> LinkOk(c, rows, i);
    assert !Signed(rows'[k]);
  }

  /** The constructor's key table: the signing key first, retained keys only where the id is free. */
  function SeedKeys(c: Crypto, signer: Option<Signer>, extra: map<string, Option<string>>): (keys: map<string, string>) {
    var own := if signer.Some? then map[signer.value.keyId := c.publicKey(signer.value.key)] else map[];
    (map id | id in extra && extra[id].Some? :: extra[id].value) + own
  }

  /** Retaining every retired key under its own id is enough for the whole rotated chain. */
  lemma SeededKeysMatch(c: Crypto, current: Option<Signer>, extra: map<string, Option<string>>, signers: seq<Option<Signer>>)
    requires forall i | 0 <= i < |signers| && signers[i].Some? :: signers[i].value.keyId != ""
    requires forall i | 0 <= i < |signers| && signers[i].Some? && signers[i].value.keyId in extra ::
               extra[signers[i].value.keyId] == Some(c.publicKey(signers[i].value.key))
    requires forall i | 0 <= i < |signers| && signers[i].Some? && current.Some? && signers[i].value.keyId == current.value.keyId ::
               signers[i].value.key == current.value.key
    ensures KeysMatch(c, SeedKeys(c, current, extra), signers)
    ensures forall i | 0 <= i < |signers| && signers[i].Some? ::
              signers[i].value.keyId in SeedKeys(c, current, extra) <==>
              signers[i].value.keyId in extra || (current.Some? && current.value.keyId == signers[i].value.keyId)
  {}
}
