/** The text behind a record's audit hash: five length-prefixed fields, then four separated by bars. */
module AuditPreimage {
  import opened Wrappers
  import opened Decimal

  datatype AuditFields = AuditFields(
    chainId: string,
    requestId: string,
    orgId: string,
    tenantId: string,
    decisionType: string,
    outcome: string,
    riskLevel: string,
    humanReview: bool,
    processingTimeMs: int)

  function Prefixed(v: string): string {
    FormatNat(|v|) + ":" + (v + "|")
  }

  /** The last four fields carry no length. */
  function Unprefixed(f: AuditFields): string {
    f.outcome + "|" + f.riskLevel + "|" + FormatBool(f.humanReview) + "|" + FormatInt(f.processingTimeMs)
  }

  function AuditText(f: AuditFields): string {
    Prefixed(f.chainId) + (Prefixed(f.requestId) + (Prefixed(f.orgId) + (Prefixed(f.tenantId) + (Prefixed(f.decisionType) + Unprefixed(f)))))
  }

  predicate BarFree(s: string) {
    '|' !in s
  }

  lemma PrefixedParses(v: string, rest: string)
    ensures ParsePrefix(Prefixed(v) + rest) == Some((|v|, v + "|" + rest))
  {
    assert Prefixed(v) + rest == FormatNat(|v|) + ":" + (v + "|" + rest);
    ParsePrefixOfFormat(|v|, v + "|" + rest);
  }

  /** A length-prefixed field can be read off the front in one way only. */
  lemma PrefixedIsDetermined(v: string, x: string, w: string, y: string)
    requires Prefixed(v) + x == Prefixed(w) + y
    ensures v == w && x == y
  {
    PrefixedParses(v, x);
    PrefixedParses(w, y);
    var s, t := v + "|" + x, w + "|" + y;
    assert s[..|v|] == v && t[..|w|] == w && s[|v| + 1..] == x && t[|w| + 1..] == y;
  }

  /** What follows the last bar can be read off the back in one way only. */
  lemma AfterLastBar(a: string, x: string, b: string, y: string)
    requires BarFree(x) && BarFree(y) && a + "|" + x == b + "|" + y
    ensures a == b && x == y
  {
    var s, t := a + "|" + x, b + "|" + y;
    assert s[|a|] == '|' && t[|b|] == '|';
    assert forall i | |a| < i < |s| :: s[i] == x[i - |a| - 1];
    assert forall i | |b| < i < |t| :: t[i] == y[i - |b| - 1];
    assert s[..|a|] == a && t[..|b|] == b && s[|a| + 1..] == x && t[|b| + 1..] == y;
  }

  lemma NumbersAreBarFree(n: int, b: bool)
    ensures BarFree(FormatInt(n)) && BarFree(FormatBool(b))
  {}

  /** The unprefixed part pins down its last two fields, and the first two only together. */
  lemma UnprefixedIsDetermined(f: AuditFields, g: AuditFields)
    requires Unprefixed(f) == Unprefixed(g)
    ensures f.humanReview == g.humanReview && f.processingTimeMs == g.processingTimeMs
    ensures f.outcome + "|" + f.riskLevel == g.outcome + "|" + g.riskLevel
  {
    NumbersAreBarFree(f.processingTimeMs, f.humanReview);
    NumbersAreBarFree(g.processingTimeMs, g.humanReview);
    var x, y := f.outcome + "|" + f.riskLevel, g.outcome + "|" + g.riskLevel;
    AfterLastBar(x + "|" + FormatBool(f.humanReview), FormatInt(f.processingTimeMs), y + "|" + FormatBool(g.humanReview), FormatInt(g.processingTimeMs));
    AfterLastBar(x, FormatBool(f.humanReview), y, FormatBool(g.humanReview));
    ParseFormatInt(f.processingTimeMs);
    ParseFormatInt(g.processingTimeMs);
  }

  /** Equal texts agree on every field but how outcome and risk level are cut. */
  lemma SameAuditText(f: AuditFields, g: AuditFields)
    requires AuditText(f) == AuditText(g)
    ensures g == f.(outcome := g.outcome, riskLevel := g.riskLevel)
    ensures f.outcome + "|" + f.riskLevel == g.outcome + "|" + g.riskLevel
  {
    var d, d' := Prefixed(f.decisionType) + Unprefixed(f), Prefixed(g.decisionType) + Unprefixed(g);
    var t, t' := Prefixed(f.tenantId) + d, Prefixed(g.tenantId) + d';
    var o, o' := Prefixed(f.orgId) + t, Prefixed(g.orgId) + t';
    PrefixedIsDetermined(f.chainId, Prefixed(f.requestId) + o, g.chainId, Prefixed(g.requestId) + o');
    PrefixedIsDetermined(f.requestId, o, g.requestId, o');
    PrefixedIsDetermined(f.orgId, t, g.orgId, t');
    PrefixedIsDetermined(f.tenantId, d, g.tenantId, d');
    PrefixedIsDetermined(f.decisionType, Unprefixed(f), g.decisionType, Unprefixed(g));
    UnprefixedIsDetermined(f, g);
  }

  predicate Clear(f: AuditFields) {
    BarFree(f.outcome) && BarFree(f.riskLevel)
  }

  lemma FirstBar(a: string, x: string, b: string, y: string)
    requires BarFree(a) && BarFree(x) && a + "|" + x == b + "|" + y
    ensures a == b && x == y
  {
    var s, t := a + "|" + x, b + "|" + y;
    assert t[|b|] == '|';
    assert forall i | 0 <= i < |s| && s[i] == '|' :: i == |a|;
    assert s[..|a|] == a && t[..|b|] == b && s[|a| + 1..] == x && t[|b| + 1..] == y;
  }

  lemma UnclearHasTwin(f: AuditFields) returns (g: AuditFields)
    requires !Clear(f)
    ensures g != f && AuditText(g) == AuditText(f)
  {
    if !BarFree(f.outcome) {
      var i :| 0 <= i < |f.outcome| && f.outcome[i] == '|';
      var p, q := f.outcome[..i], f.outcome[i + 1..];
      g := f.(outcome := p, riskLevel := q + "|" + f.riskLevel);
      assert f.outcome == p + "|" + q;
      assert f.outcome + "|" + f.riskLevel == g.outcome + "|" + g.riskLevel;
    } else {
      var i :| 0 <= i < |f.riskLevel| && f.riskLevel[i] == '|';
      var p, q := f.riskLevel[..i], f.riskLevel[i + 1..];
      g := f.(outcome := f.outcome + "|" + p, riskLevel := q);
      assert f.riskLevel == p + "|" + q;
      assert f.outcome + "|" + f.riskLevel == g.outcome + "|" + g.riskLevel;
    }
    assert Unprefixed(f) == Unprefixed(g);
  }

  /**
   The text is documented to be length-prefixed against collisions. Its last fields are
   not: the fields are the only ones with their text if and only if neither outcome nor
   risk level holds a bar.
   */
  lemma AuditTextCommitsIff(f: AuditFields)
    ensures Clear(f) <==> forall g :: AuditText(g) == AuditText(f) ==> g == f
  {
    if Clear(f) {
      forall g | AuditText(g) == AuditText(f) ensures g == f {
        SameAuditText(f, g);
        FirstBar(f.outcome, f.riskLevel, g.outcome, g.riskLevel);
      }
    } else {
      var g := UnclearHasTwin(f);
    }
  }
}
