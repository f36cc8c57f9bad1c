/** The digested fields of a decision record and their pre-image. */
module DecisionRecord {
  import opened Wrappers
  import opened Decimal
  import opened DigestEncoding

  /** Every digested field except chain_seq, which the tracker assigns. */
  datatype DecisionBody = DecisionBody(
    id: string,
    chainId: string,
    requestId: string,
    parentRequestId: string,
    stepNumber: int,
    orgId: string,
    tenantId: string,
    clientId: string,
    userId: string,
    decisionType: string,
    decisionOutcome: string,
    systemId: string,
    modelProvider: string,
    modelId: string,
    policiesEvaluated: seq<string>,
    policyTriggered: string,
    riskLevel: string,
    requiresHumanReview: bool,
    processingTimeMs: int,
    inputHash: string,
    outputHash: string,
    auditHash: string,
    dataSources: seq<string>,
    createdAtMicros: int)

  function IdentityFields(b: DecisionBody, chainSeq: int): seq<Field> {
    [ Scalar("id", b.id),
      Scalar("chain_id", b.chainId),
      Scalar("request_id", b.requestId),
      Scalar("parent_request_id", b.parentRequestId),
      Scalar("step_number", FormatInt(b.stepNumber)),
      Scalar("chain_seq", FormatInt(chainSeq)),
      Scalar("org_id", b.orgId),
      Scalar("tenant_id", b.tenantId),
      Scalar("client_id", b.clientId),
      Scalar("user_id", b.userId) ]
  }

  function OutcomeFields(b: DecisionBody): seq<Field> {
    [ Scalar("decision_type", b.decisionType),
      Scalar("decision_outcome", b.decisionOutcome),
      Scalar("system_id", b.systemId),
      Scalar("model_provider", b.modelProvider),
      Scalar("model_id", b.modelId),
      Items("policies_evaluated", b.policiesEvaluated),
      Scalar("policy_triggered", b.policyTriggered),
      Scalar("risk_level", b.riskLevel) ]
  }

  function EvidenceFields(b: DecisionBody): seq<Field> {
    [ Scalar("requires_human_review", FormatBool(b.requiresHumanReview)),
      Scalar("processing_time_ms", FormatInt(b.processingTimeMs)),
      Scalar("input_hash", b.inputHash),
      Scalar("output_hash", b.outputHash),
      Scalar("audit_hash", b.auditHash),
      Items("data_sources", b.dataSources),
      Scalar("created_at_unixmicro", FormatInt(b.createdAtMicros)) ]
  }

  /** The fields in the order in which recordDigestPreimage writes them. */
  function Fields(b: DecisionBody, chainSeq: int): seq<Field> {
    IdentityFields(b, chainSeq) + OutcomeFields(b) + EvidenceFields(b)
  }

  function Preimage(b: DecisionBody, chainSeq: int): string {
    EncodeFields(Fields(b, chainSeq))
  }

  const IDENTITY_SHAPES: seq<Shape> :=
    [ Shape("id", false), Shape("chain_id", false), Shape("request_id", false), Shape("parent_request_id", false),
      Shape("step_number", false), Shape("chain_seq", false), Shape("org_id", false), Shape("tenant_id", false),
      Shape("client_id", false), Shape("user_id", false) ]

  const OUTCOME_SHAPES: seq<Shape> :=
    [ Shape("decision_type", false), Shape("decision_outcome", false), Shape("system_id", false),
      Shape("model_provider", false), Shape("model_id", false), Shape("policies_evaluated", true),
      Shape("policy_triggered", false), Shape("risk_level", false) ]

  const EVIDENCE_SHAPES: seq<Shape> :=
    [ Shape("requires_human_review", false), Shape("processing_time_ms", false), Shape("input_hash", false),
      Shape("output_hash", false), Shape("audit_hash", false), Shape("data_sources", true),
      Shape("created_at_unixmicro", false) ]

  const RECORD_SHAPES: seq<Shape> := IDENTITY_SHAPES + OUTCOME_SHAPES + EVIDENCE_SHAPES

  predicate IsRecordRaw(x: seq<Raw>, y: seq<Raw>, z: seq<Raw>) {
    && |x| == 10 && (forall i | 0 <= i < 10 :: x[i].RawScalar?)
    && |y| == 8 && (forall i | 0 <= i < 8 :: y[i].RawItems? <==> i == 5)
    && |z| == 7 && (forall i | 0 <= i < 7 :: z[i].RawItems? <==> i == 5)
  }

  /** Reads the record back from the raw fields of its three groups. */
  function FromGroups(x: seq<Raw>, y: seq<Raw>, z: seq<Raw>): Option<(DecisionBody, int)> {
    if !IsRecordRaw(x, y, z) then None
    else
      var step, chainSeq := ParseInt(x[4].value), ParseInt(x[5].value);
      var review, millis, created := ParseBool(z[0].value), ParseInt(z[1].value), ParseInt(z[6].value);
      if step.None? || chainSeq.None? || review.None? || millis.None? || created.None? then None
      else Some((DecisionBody(
                   x[0].value, x[1].value, x[2].value, x[3].value, step.value,
                   x[6].value, x[7].value, x[8].value, x[9].value,
                   y[0].value, y[1].value, y[2].value, y[3].value, y[4].value,
                   Split(y[5].joined, y[5].count), y[6].value, y[7].value,
                   review.value, millis.value, z[2].value, z[3].value, z[4].value,
                   Split(z[5].joined, z[5].count), created.value), chainSeq.value))
  }

  function FromRaws(raws: seq<Raw>): Option<(DecisionBody, int)> {
    if |raws| != 25 then None else FromGroups(raws[..10], raws[10..18], raws[18..])
  }

  function ParsePreimage(s: string): Option<(DecisionBody, int)> {
    match ParseRaws(RECORD_SHAPES, s)
    case None => None
    case Some(raws) => FromRaws(raws)
  }

  predicate CleanLists(b: DecisionBody) {
    Clean(b.policiesEvaluated) && Clean(b.dataSources)
  }

  predicate IdentityRaws(x: seq<Raw>, b: DecisionBody, chainSeq: int) {
    && |x| == 10
    && x[0] == RawScalar(b.id)
    && x[1] == RawScalar(b.chainId)
    && x[2] == RawScalar(b.requestId)
    && x[3] == RawScalar(b.parentRequestId)
    && x[4] == RawScalar(FormatInt(b.stepNumber))
    && x[5] == RawScalar(FormatInt(chainSeq))
    && x[6] == RawScalar(b.orgId)
    && x[7] == RawScalar(b.tenantId)
    && x[8] == RawScalar(b.clientId)
    && x[9] == RawScalar(b.userId)
  }

  predicate OutcomeRaws(x: seq<Raw>, b: DecisionBody) {
    && |x| == 8
    && x[0] == RawScalar(b.decisionType)
    && x[1] == RawScalar(b.decisionOutcome)
    && x[2] == RawScalar(b.systemId)
    && x[3] == RawScalar(b.modelProvider)
    && x[4] == RawScalar(b.modelId)
    && x[5] == RawItems(|b.policiesEvaluated|, Join(b.policiesEvaluated))
    && x[6] == RawScalar(b.policyTriggered)
    && x[7] == RawScalar(b.riskLevel)
  }

  predicate EvidenceRaws(x: seq<Raw>, b: DecisionBody) {
    && |x| == 7
    && x[0] == RawScalar(FormatBool(b.requiresHumanReview))
    && x[1] == RawScalar(FormatInt(b.processingTimeMs))
    && x[2] == RawScalar(b.inputHash)
    && x[3] == RawScalar(b.outputHash)
    && x[4] == RawScalar(b.auditHash)
    && x[5] == RawItems(|b.dataSources|, Join(b.dataSources))
    && x[6] == RawScalar(FormatInt(b.createdAtMicros))
  }

  /** The raw fields that the stream of a record holds. */
  predicate IsRawOf(raws: seq<Raw>, b: DecisionBody, chainSeq: int) {
    && |raws| == 25
    && IdentityRaws(raws[..10], b, chainSeq)
    && OutcomeRaws(raws[10..18], b)
    && EvidenceRaws(raws[18..], b)
  }

  lemma GroupShapes(b: DecisionBody, chainSeq: int)
    ensures ShapesOf(IdentityFields(b, chainSeq)) == IDENTITY_SHAPES
    ensures ShapesOf(OutcomeFields(b)) == OUTCOME_SHAPES
    ensures ShapesOf(EvidenceFields(b)) == EVIDENCE_SHAPES
  {}

  lemma GroupRaws(b: DecisionBody, chainSeq: int)
    ensures IdentityRaws(RawsOf(IdentityFields(b, chainSeq)), b, chainSeq)
    ensures OutcomeRaws(RawsOf(OutcomeFields(b)), b)
    ensures EvidenceRaws(RawsOf(EvidenceFields(b)), b)
  {}

  lemma RawsConcat(x: seq<Field>, y: seq<Field>, z: seq<Field>)
    ensures ShapesOf(x + y + z) == ShapesOf(x) + ShapesOf(y) + ShapesOf(z)
    ensures RawsOf(x + y + z) == RawsOf(x) + RawsOf(y) + RawsOf(z)
  {}

  lemma SliceGroups(x: seq<Raw>, y: seq<Raw>, z: seq<Raw>)
    requires |x| == 10 && |y| == 8 && |z| == 7
    ensures (x + y + z)[..10] == x && (x + y + z)[10..18] == y && (x + y + z)[18..] == z
  {}

  lemma RawsOfRecord(b: DecisionBody, chainSeq: int)
    ensures ShapesOf(Fields(b, chainSeq)) == RECORD_SHAPES
    ensures IsRawOf(RawsOf(Fields(b, chainSeq)), b, chainSeq)
  {
    var x, y, z := IdentityFields(b, chainSeq), OutcomeFields(b), EvidenceFields(b);
    GroupShapes(b, chainSeq);
    GroupRaws(b, chainSeq);
    RawsConcat(x, y, z);
    SliceGroups(RawsOf(x), RawsOf(y), RawsOf(z));
  }

  lemma ParseRecordRaws(b: DecisionBody, chainSeq: int) returns (raws: seq<Raw>)
    ensures ParseRaws(RECORD_SHAPES, Preimage(b, chainSeq)) == Some(raws) && IsRawOf(raws, b, chainSeq)
  {
    var fs := Fields(b, chainSeq);
    raws := RawsOf(fs);
    RawsOfRecord(b, chainSeq);
    ParseRawsOfEncode(fs, RECORD_SHAPES, raws, Preimage(b, chainSeq));
  }

  lemma FromGroupsOfRecord(x: seq<Raw>, y: seq<Raw>, z: seq<Raw>, b: DecisionBody, chainSeq: int)
    requires IdentityRaws(x, b, chainSeq) && OutcomeRaws(y, b) && EvidenceRaws(z, b)
    requires ParseInt(x[4].value) == Some(b.stepNumber) && ParseInt(x[5].value) == Some(chainSeq)
    requires ParseInt(z[1].value) == Some(b.processingTimeMs) && ParseInt(z[6].value) == Some(b.createdAtMicros)
    requires Split(y[5].joined, y[5].count) == b.policiesEvaluated
    requires Split(z[5].joined, z[5].count) == b.dataSources
    ensures FromGroups(x, y, z) == Some((b, chainSeq))
  {}

  /** Round trip: the parser recovers every digested field of a record whose lists are clean. */
  lemma ParsePreimageOfRecord(b: DecisionBody, chainSeq: int)
    requires CleanLists(b)
    ensures ParsePreimage(Preimage(b, chainSeq)) == Some((b, chainSeq))
  {
    var raws := ParseRecordRaws(b, chainSeq);
    ParseFormatInt(b.stepNumber);
    ParseFormatInt(chainSeq);
    ParseFormatInt(b.processingTimeMs);
    ParseFormatInt(b.createdAtMicros);
    SplitJoin(b.policiesEvaluated);
    SplitJoin(b.dataSources);
    FromGroupsOfRecord(raws[..10], raws[10..18], raws[18..], b, chainSeq);
  }

  lemma SameRaws(raws: seq<Raw>, b: DecisionBody, n: int, b': DecisionBody, n': int)
    requires IsRawOf(raws, b, n) && IsRawOf(raws, b', n')
    ensures n == n'
    ensures b'.(policiesEvaluated := [], dataSources := []) == b.(policiesEvaluated := [], dataSources := [])
    ensures |b'.policiesEvaluated| == |b.policiesEvaluated| && |b'.dataSources| == |b.dataSources|
    ensures Join(b'.policiesEvaluated) == Join(b.policiesEvaluated)
    ensures Join(b'.dataSources) == Join(b.dataSources)
  {
    ParseFormatInt(n);
    ParseFormatInt(n');
    ParseFormatInt(b.stepNumber);
    ParseFormatInt(b'.stepNumber);
    ParseFormatInt(b.processingTimeMs);
    ParseFormatInt(b'.processingTimeMs);
    ParseFormatInt(b.createdAtMicros);
    ParseFormatInt(b'.createdAtMicros);
  }

  /** Two records with one pre-image agree on everything but how their lists are cut. */
  lemma SamePreimage(b: DecisionBody, n: int, b': DecisionBody, n': int)
    requires Preimage(b, n) == Preimage(b', n')
    ensures n == n'
    ensures b'.(policiesEvaluated := [], dataSources := []) == b.(policiesEvaluated := [], dataSources := [])
    ensures |b'.policiesEvaluated| == |b.policiesEvaluated| && |b'.dataSources| == |b.dataSources|
    ensures Join(b'.policiesEvaluated) == Join(b.policiesEvaluated)
    ensures Join(b'.dataSources) == Join(b.dataSources)
  {
    var raws := ParseRecordRaws(b, n);
    var raws' := ParseRecordRaws(b', n');
    SameRaws(raws, b, n, b', n');
  }

  /** A record with clean lists shares its pre-image with no other record, clean or not. */
  lemma PreimageIsInjectiveAt(b: DecisionBody, n: int, b': DecisionBody, n': int)
    requires CleanLists(b) && Preimage(b, n) == Preimage(b', n')
    ensures b' == b && n' == n
  {
    SamePreimage(b, n, b', n');
    CleanListIsDetermined(b.policiesEvaluated, b'.policiesEvaluated);
    CleanListIsDetermined(b.dataSources, b'.dataSources);
  }

  /** Fields that differ only in how a list is cut, with the same count, encode alike. */
  lemma RecutHasSamePreimage(b: DecisionBody, n: int, policies: seq<string>, sources: seq<string>)
    requires |policies| == |b.policiesEvaluated| && Join(policies) == Join(b.policiesEvaluated)
    requires |sources| == |b.dataSources| && Join(sources) == Join(b.dataSources)
    ensures Preimage(b.(policiesEvaluated := policies, dataSources := sources), n) == Preimage(b, n)
  {
    var b' := b.(policiesEvaluated := policies, dataSources := sources);
    var x, y, z := IdentityFields(b, n), OutcomeFields(b), EvidenceFields(b);
    var y', z' := OutcomeFields(b'), EvidenceFields(b');
    OutcomeRecut(b, policies, sources);
    EvidenceRecut(b, policies, sources);
    assert IdentityFields(b', n) == x;
    SameEncodings(x + y + z, x + y' + z');
  }

  lemma OutcomeRecut(b: DecisionBody, policies: seq<string>, sources: seq<string>)
    requires |policies| == |b.policiesEvaluated| && Join(policies) == Join(b.policiesEvaluated)
    ensures var y, y' := OutcomeFields(b), OutcomeFields(b.(policiesEvaluated := policies, dataSources := sources));
            |y| == |y'| && forall i | 0 <= i < |y| :: EncodeField(y[i]) == EncodeField(y'[i])
  {
    var y, y' := OutcomeFields(b), OutcomeFields(b.(policiesEvaluated := policies, dataSources := sources));
    forall i | 0 <= i < |y| ensures EncodeField(y[i]) == EncodeField(y'[i]) {
      assert i != 5 ==> y[i] == y'[i];
    }
  }

  lemma EvidenceRecut(b: DecisionBody, policies: seq<string>, sources: seq<string>)
    requires |sources| == |b.dataSources| && Join(sources) == Join(b.dataSources)
    ensures var z, z' := EvidenceFields(b), EvidenceFields(b.(policiesEvaluated := policies, dataSources := sources));
            |z| == |z'| && forall i | 0 <= i < |z| :: EncodeField(z[i]) == EncodeField(z'[i])
  {
    var z, z' := EvidenceFields(b), EvidenceFields(b.(policiesEvaluated := policies, dataSources := sources));
    forall i | 0 <= i < |z| ensures EncodeField(z[i]) == EncodeField(z'[i]) {
      assert i != 5 ==> z[i] == z'[i];
    }
  }

  lemma {:induction false} SameEncodings(fs: seq<Field>, fs': seq<Field>)
    requires |fs| == |fs'| && forall i | 0 <= i < |fs| :: EncodeField(fs[i]) == EncodeField(fs'[i])
    ensures EncodeFields(fs) == EncodeFields(fs')
  {
    if fs != [] {
      SameEncodings(fs[1..], fs'[1..]);
    }
  }

  /**
   The exact condition under which the pre-image commits to the record: the lists
   are clean. The comment over fieldSep claims it for all field tuples; a list of
   two or more items with a unit separator inside an item is the whole exception.
   */
  lemma PreimageCommitsIffClean(b: DecisionBody, n: int)
    ensures CleanLists(b) <==> forall b': DecisionBody, n': int :: Preimage(b', n') == Preimage(b, n) ==> b' == b && n' == n
  {
    if CleanLists(b) {
      forall b': DecisionBody, n': int | Preimage(b', n') == Preimage(b, n) ensures b' == b && n' == n {
        PreimageIsInjectiveAt(b, n, b', n');
      }
    } else {
      var b' := TwinRecord(b, n);
      assert Preimage(b', n) == Preimage(b, n);
    }
  }

  lemma TwinRecord(b: DecisionBody, n: int) returns (b': DecisionBody)
    requires !CleanLists(b)
    ensures b' != b && Preimage(b', n) == Preimage(b, n)
    ensures b'.orgId == b.orgId && b'.chainId == b.chainId
  {
    if !Clean(b.policiesEvaluated) {
      var policies := AmbiguousListHasTwin(b.policiesEvaluated);
      b' := b.(policiesEvaluated := policies, dataSources := b.dataSources);
      RecutHasSamePreimage(b, n, policies, b.dataSources);
    } else {
      var sources := AmbiguousListHasTwin(b.dataSources);
      b' := b.(policiesEvaluated := b.policiesEvaluated, dataSources := sources);
      RecutHasSamePreimage(b, n, b.policiesEvaluated, sources);
    }
  }
}
