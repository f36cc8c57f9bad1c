/**
 From a policy result to the answer of the decide endpoint: the verdict mapping, the
 merge of the redaction owed for critical personal data, the seam-capability gate with
 the org's fallback posture, and the order of the reported policies.
 */
module DecisionPipeline {
  import opened Wrappers
  import opened OverrideCache

  datatype Verdict = Allow | Deny | NeedsApproval

  datatype ObligationType = RedactPii | OtherObligation(name: string)

  datatype Phase = RequestPhase | OtherPhase(name: string)

  datatype Obligation = Obligation(kind: ObligationType, detail: string, fulfillment: Option<Phase>)

  datatype Reason = Text(text: string) | RequireApproval | FallbackLogged | FallbackDenied

  datatype PolicyResult = PolicyResult(
    blocked: bool,
    reason: string,
    requiresApproval: bool,
    requiresRedaction: bool,
    advisory: seq<Reason>)

  /** What the validator-backed detectors found, with their reason texts. */
  datatype PiiFindings = PiiFindings(india: bool, indonesia: bool, reason: string, indonesiaReason: string)

  datatype Decision = Decision(verdict: Verdict, reasons: seq<Reason>, obligations: seq<Obligation>)

  datatype Fallback = Fallback(action: DetectionAction, suppressed: seq<Obligation>)

  const MAX_CAPABILITIES: nat := 16
  const MAX_CAPABILITY_LEN: nat := 64
  const REQUEST_BODY_REDACTION: string := "request_body_redaction"
  const OBLIGATION_FALLBACK: string := "obligation_fallback"

  function RedactObligation(detail: string): Obligation {
    Obligation(RedactPii, detail, Some(RequestPhase))
  }

  predicate RequiresBodyRedaction(o: Obligation) {
    o.kind == RedactPii && o.fulfillment == Some(RequestPhase)
  }

  // -------------------------------------------------- mapping and redaction merge

  function MapPolicyResult(result: Option<PolicyResult>, communityMode: bool): Decision {
    match result
    case None => Decision(Allow, [], [])
    case Some(p) =>
      if p.blocked then Decision(Deny, if p.reason != "" then [Text(p.reason)] else [], [])
      else if p.requiresApproval && !communityMode then Decision(NeedsApproval, [RequireApproval], [])
      else Decision(Allow, p.advisory, if p.requiresRedaction then [RedactObligation(p.reason)] else [])
  }

  function RedactDetail(pii: PiiFindings): string {
    if pii.reason == "" && pii.indonesia then pii.indonesiaReason else pii.reason
  }

  function MergeRedaction(d: Decision, pii: PiiFindings): Decision {
    if (pii.india || pii.indonesia) && d.verdict == Allow && forall o | o in d.obligations :: o.kind != RedactPii
    then d.(obligations := d.obligations + [RedactObligation(RedactDetail(pii))])
    else d
  }

  /** The decision both attachment sites leave for the gate. */
  function Attached(result: Option<PolicyResult>, communityMode: bool, pii: PiiFindings): Decision {
    MergeRedaction(MapPolicyResult(result, communityMode), pii)
  }

  method AttachRedaction(d: Decision, pii: PiiFindings) returns (r: Decision)
    ensures r == MergeRedaction(d, pii)
  {
    r := d;
    if (pii.india || pii.indonesia) && d.verdict == Allow {
      var found := false;
      for i := 0 to |d.obligations|
        invariant !found && forall j | 0 <= j < i :: d.obligations[j].kind != RedactPii
      {
        if d.obligations[i].kind == RedactPii {
          found := true;
          break;
        }
      }
      if !found {
        r := d.(obligations := d.obligations + [RedactObligation(RedactDetail(pii))]);
      }
    }
  }

  // ---------------------------------------------------------------- capabilities

  /** The entries that are looked at: the first sixteen. */
  function Considered(raw: seq<string>): seq<string> {
    raw[..if |raw| < MAX_CAPABILITIES then |raw| else MAX_CAPABILITIES]
  }

  /** normal trims and lowercases. */
  function Capabilities(raw: seq<string>, normal: string -> string): set<string> {
    set c | c in Considered(raw) && normal(c) != "" && |normal(c)| <= MAX_CAPABILITY_LEN :: normal(c)
  }

  predicate Advertised(raw: seq<string>, normal: string -> string) {
    exists c | c in Considered(raw) :: normal(c) != ""
  }

  method CanonicalizeCapabilities(raw: seq<string>, normal: string -> string) returns (caps: set<string>, advertised: bool)
    ensures caps == Capabilities(raw, normal) && advertised == Advertised(raw, normal)
  {
    caps, advertised := {}, false;
    if |raw| == 0 {
      return;
    }
    var i := 0;
    while i < |raw| && i < MAX_CAPABILITIES
      invariant i <= |Considered(raw)|
      invariant caps == set c | c in Considered(raw)[..i] && normal(c) != "" && |normal(c)| <= MAX_CAPABILITY_LEN :: normal(c)
      invariant advertised == exists c | c in Considered(raw)[..i] :: normal(c) != ""
    {
      var c := normal(raw[i]);
      assert Considered(raw)[..i + 1] == Considered(raw)[..i] + [raw[i]];
      if c != "" {
        advertised := true;
        if |c| <= MAX_CAPABILITY_LEN {
          caps := caps + {c};
        }
      }
      i := i + 1;
    }
    assert Considered(raw)[..i] == Considered(raw);
  }

  /** A capability is what one of the first sixteen entries says, if that is not blank and not longer than 64. */
  lemma CapabilityIff(raw: seq<string>, normal: string -> string, c: string)
    ensures c in Capabilities(raw, normal) <==> 0 < |c| < 65 && exists i :: 0 <= i < |raw| && i < 16 && normal(raw[i]) == c
  {
    assert forall i | 0 <= i < |raw| && i < 16 :: Considered(raw)[i] == raw[i] && raw[i] in Considered(raw);
  }

  /** Adding entries never makes a caller less capable, and one that advertises keeps advertising. */
  lemma MoreEntriesMoreCapable(raw: seq<string>, more: seq<string>, normal: string -> string)
    ensures Capabilities(raw, normal) <= Capabilities(raw + more, normal)
    ensures Advertised(raw, normal) ==> Advertised(raw + more, normal)
  {
    forall c | c in Considered(raw) ensures c in Considered(raw + more) {
      var i :| 0 <= i < |Considered(raw)| && Considered(raw)[i] == c;
      assert Considered(raw + more)[i] == c;
    }
  }

  // ---------------------------------------------------------------- the posture

  /** Only a stored block blocks; a missing cache, a missing posture and a meaningless one all mean log. */
  function ResolveFallback(orgId: string, cached: Option<Overrides>): DetectionAction {
    if orgId == "" || cached.None? || OBLIGATION_FALLBACK !in cached.value then LogOnly
    else match cached.value[OBLIGATION_FALLBACK]
      case Block => Block
      case _ => LogOnly
  }

  // -------------------------------------------------------------------- the gate

  datatype Caller = Caller(capabilities: seq<string>, normal: string -> string)

  predicate Incapable(caller: Caller) {
    && Advertised(caller.capabilities, caller.normal)
    && REQUEST_BODY_REDACTION !in Capabilities(caller.capabilities, caller.normal)
  }

  function Select(os: seq<Obligation>, body: bool): seq<Obligation> {
    if os == [] then []
    else if RequiresBodyRedaction(os[|os| - 1]) == body then Select(os[..|os| - 1], body) + [os[|os| - 1]]
    else Select(os[..|os| - 1], body)
  }

  /** The gate: what it withholds, and what becomes of the decision. */
  function Gate(d: Decision, caller: Caller, posture: DetectionAction): (Decision, Option<Fallback>) {
    var withheld := Select(d.obligations, true);
    if d.verdict != Allow || !Incapable(caller) || withheld == [] then (d, None)
    else if posture == Block then (Decision(Deny, d.reasons + [FallbackDenied], []), Some(Fallback(posture, withheld)))
    else (Decision(Allow, d.reasons + [FallbackLogged], Select(d.obligations, false)), Some(Fallback(posture, withheld)))
  }

  method ApplySeamCapability(d: Decision, caller: Caller, posture: DetectionAction) returns (r: Decision, fallback: Option<Fallback>)
    ensures (r, fallback) == Gate(d, caller, posture)
  {
    if d.verdict != Allow || |d.obligations| == 0 {
      return d, None;
    }
    var caps, advertised := CanonicalizeCapabilities(caller.capabilities, caller.normal);
    if !advertised {
      return d, None;
    }
    var kept, suppressed := [], [];
    for i := 0 to |d.obligations|
      invariant suppressed == if Incapable(caller) then Select(d.obligations[..i], true) else []
      invariant Incapable(caller) ==> kept == Select(d.obligations[..i], false)
    {
      assert d.obligations[..i + 1][..i] == d.obligations[..i];
      if RequiresBodyRedaction(d.obligations[i]) && REQUEST_BODY_REDACTION !in caps {
        suppressed := suppressed + [d.obligations[i]];
      } else {
        kept := kept + [d.obligations[i]];
      }
    }
    assert d.obligations[..|d.obligations|] == d.obligations;
    if |suppressed| == 0 {
      return d, None;
    }
    if posture == Block {
      return Decision(Deny, d.reasons + [FallbackDenied], []), Some(Fallback(posture, suppressed));
    }
    return Decision(Allow, d.reasons + [FallbackLogged], kept), Some(Fallback(posture, suppressed));
  }

  // ---------------------------------------------------------------- main results

  predicate DeniedByPolicy(result: Option<PolicyResult>) {
    result.Some? && result.value.blocked
  }

  predicate Held(result: Option<PolicyResult>, communityMode: bool) {
    result.Some? && !result.value.blocked && result.value.requiresApproval && !communityMode
  }

  /** A redaction is owed when policy neither denies nor holds, and policy or a detector wants one. */
  predicate Owes(result: Option<PolicyResult>, communityMode: bool, pii: PiiFindings) {
    && !DeniedByPolicy(result) && !Held(result, communityMode)
    && ((result.Some? && result.value.requiresRedaction) || pii.india || pii.indonesia)
  }

  /** The redaction owed: policy's own when it asks for one, otherwise the detectors', the generic finding first. */
  predicate IsOwed(o: Obligation, result: Option<PolicyResult>, pii: PiiFindings) {
    && o.kind == RedactPii && o.fulfillment == Some(RequestPhase)
    && if result.Some? && result.value.requiresRedaction then o.detail == result.value.reason
       else
         && (pii.reason != "" ==> o.detail == pii.reason)
         && (pii.reason == "" && pii.indonesia ==> o.detail == pii.indonesiaReason)
         && (pii.reason == "" && !pii.indonesia ==> o.detail == "")
  }

  /** The org has stored a block for the fallback. */
  predicate StoresBlock(orgId: string, cached: Option<Overrides>) {
    orgId != "" && cached.Some? && "obligation_fallback" in cached.value && cached.value["obligation_fallback"] == Block
  }

  function Advice(result: Option<PolicyResult>): seq<Reason> {
    if result.Some? then result.value.advisory else []
  }

  /** Both attachment sites together leave exactly one redaction when one is owed, and none otherwise. */
  lemma AttachedOnce(result: Option<PolicyResult>, communityMode: bool, pii: PiiFindings)
    ensures var d := Attached(result, communityMode, pii);
            if Owes(result, communityMode, pii) then |d.obligations| == 1 && IsOwed(d.obligations[0], result, pii)
            else d.obligations == []
  {}

  /** A caller is incapable when some of its first sixteen entries says something, and none says body redaction. */
  lemma IncapableIff(caller: Caller)
    ensures Incapable(caller) <==>
            && (exists i :: 0 <= i < |caller.capabilities| && i < 16 && caller.normal(caller.capabilities[i]) != "")
            && (forall i | 0 <= i < |caller.capabilities| && i < 16 :: caller.normal(caller.capabilities[i]) != "request_body_redaction")
  {
    var raw := caller.capabilities;
    assert forall i | 0 <= i < |raw| && i < 16 :: Considered(raw)[i] == raw[i] && raw[i] in Considered(raw);
    assert |REQUEST_BODY_REDACTION| <= MAX_CAPABILITY_LEN;
    forall i | 0 <= i < |raw| && i < 16 && caller.normal(raw[i]) == REQUEST_BODY_REDACTION
      ensures REQUEST_BODY_REDACTION in Capabilities(raw, caller.normal)
    {
      assert raw[i] in Considered(raw);
    }
  }

  lemma SelectOne(o: Obligation)
    requires RequiresBodyRedaction(o)
    ensures Select([o], true) == [o] && Select([o], false) == []
  {
    assert [o][..0] == [];
    assert Select([], true) == [] && Select([], false) == [];
  }

  /**
   No invisible allow. A redaction that is owed is carried by the allow, or is on record as
   suppressed, which happens exactly when the caller is incapable; the allow then goes out
   with the log reason, or turns into a deny exactly when the org stores a block.
   */
  lemma NoInvisibleAllow(result: Option<PolicyResult>, communityMode: bool, pii: PiiFindings, caller: Caller, orgId: string, cached: Option<Overrides>)
    ensures var (out, fallback) := Gate(Attached(result, communityMode, pii), caller, ResolveFallback(orgId, cached));
            var owes, blocks := Owes(result, communityMode, pii), StoresBlock(orgId, cached);
            && (fallback.Some? <==> owes && Incapable(caller))
            && (fallback.Some? ==>
                  && fallback.value.action == (if blocks then Block else LogOnly)
                  && |fallback.value.suppressed| == 1 && IsOwed(fallback.value.suppressed[0], result, pii))
            && (if owes && !Incapable(caller) then |out.obligations| == 1 && IsOwed(out.obligations[0], result, pii)
                else out.obligations == [])
  {
    AttachedOnce(result, communityMode, pii);
    var d := Attached(result, communityMode, pii);
    if Owes(result, communityMode, pii) {
      SelectOne(d.obligations[0]);
      assert d.obligations == [d.obligations[0]];
    }
  }

  /** The verdict and reasons policy alone leaves. */
  predicate PolicyVerdict(d: Decision, result: Option<PolicyResult>, communityMode: bool) {
    && (d.verdict == Deny <==> DeniedByPolicy(result)) && (d.verdict == NeedsApproval <==> Held(result, communityMode))
    && (DeniedByPolicy(result) ==> d.reasons == if result.value.reason != "" then [Text(result.value.reason)] else [])
    && (Held(result, communityMode) ==> d.reasons == [RequireApproval])
    && (d.verdict == Allow ==> d.reasons == Advice(result))
  }

  lemma AttachingKeepsVerdict(result: Option<PolicyResult>, communityMode: bool, pii: PiiFindings)
    ensures PolicyVerdict(Attached(result, communityMode, pii), result, communityMode)
  {}

  /** The verdict and its reasons, from the inputs: denied by policy, held, denied by the fallback, or allowed. */
  lemma VerdictIsExact(result: Option<PolicyResult>, communityMode: bool, pii: PiiFindings, caller: Caller, orgId: string, cached: Option<Overrides>)
    ensures var (out, _) := Gate(Attached(result, communityMode, pii), caller, ResolveFallback(orgId, cached));
            var withheld, blocks := Owes(result, communityMode, pii) && Incapable(caller), StoresBlock(orgId, cached);
            && (out.verdict == Deny <==> DeniedByPolicy(result) || (withheld && blocks))
            && (out.verdict == NeedsApproval <==> Held(result, communityMode))
            && (DeniedByPolicy(result) ==> out.reasons == if result.value.reason != "" then [Text(result.value.reason)] else [])
            && (Held(result, communityMode) ==> out.reasons == [RequireApproval])
            && (!DeniedByPolicy(result) && !Held(result, communityMode) ==>
                  out.reasons == Advice(result) + (if !withheld then [] else if blocks then [FallbackDenied] else [FallbackLogged]))
  {
    var d := Attached(result, communityMode, pii);
    AttachingKeepsVerdict(result, communityMode, pii);
    NoInvisibleAllow(result, communityMode, pii, caller, orgId, cached);
    assert Advice(result) + [] == Advice(result);
  }

  lemma {:induction false} SelectPartitions(os: seq<Obligation>, o: Obligation)
    ensures multiset(os) == multiset(Select(os, true)) + multiset(Select(os, false))
    ensures o in Select(os, true) ==> o.kind == RedactPii && o.fulfillment == Some(RequestPhase)
    ensures o in Select(os, false) ==> o.kind != RedactPii || o.fulfillment != Some(RequestPhase)
  {
    if os != [] {
      SelectPartitions(os[..|os| - 1], o);
      assert os == os[..|os| - 1] + [os[|os| - 1]];
    }
  }

  /**
   On any obligation list, whatever attached it: a caller that does not advertise is
   left alone, and otherwise every obligation is kept, or recorded as suppressed, and
   an allow never keeps one its caller cannot discharge.
   */
  lemma GateAccountsForAll(d: Decision, caller: Caller, posture: DetectionAction, o: Obligation)
    requires d.verdict == Allow
    ensures var (out, fallback) := Gate(d, caller, posture);
            && (!Advertised(caller.capabilities, caller.normal) ==> out == d && fallback.None?)
            && (fallback.None? ==> out == d)
            && (fallback.Some? ==> fallback.value.suppressed != [] && fallback.value.action == posture)
            && (out.verdict == Allow && fallback.Some? ==> multiset(d.obligations) == multiset(out.obligations) + multiset(fallback.value.suppressed))
            && (fallback.Some? && o in fallback.value.suppressed ==> o.kind == RedactPii && o.fulfillment == Some(RequestPhase))
            && (Incapable(caller) && o in out.obligations ==> o.kind != RedactPii || o.fulfillment != Some(RequestPhase))
  {
    SelectPartitions(d.obligations, o);
    if Incapable(caller) && Select(d.obligations, true) == [] && RequiresBodyRedaction(o) {
      assert multiset(d.obligations)[o] == multiset(Select(d.obligations, true))[o] + multiset(Select(d.obligations, false))[o];
    }
  }

  // ------------------------------------------------------- the reported policies

  /** Position of the first occurrence, or the length when there is none. */
  function IndexOf(policies: seq<string>, id: string, from: nat): nat
    requires from <= |policies|
    decreases |policies| - from
  {
    if from == |policies| || policies[from] == id then from else IndexOf(policies, id, from + 1)
  }

  lemma {:induction false} IndexOfFinds(policies: seq<string>, id: string, from: nat)
    requires from <= |policies|
    ensures var i := IndexOf(policies, id, from);
            from <= i <= |policies| && (i < |policies| ==> policies[i] == id) && forall j | from <= j < i :: policies[j] != id
    decreases |policies| - from
  {
    if from < |policies| && policies[from] != id {
      IndexOfFinds(policies, id, from + 1);
    }
  }

  /** The blocking policy swapped to the front, or put there. */
  function Hoisted(policies: seq<string>, id: string): seq<string> {
    var i := IndexOf(policies, id, 0);
    if i < |policies| then policies[i := policies[0]][0 := policies[i]] else [id] + policies
  }

  lemma SwapKeepsAll(s: seq<string>, i: nat)
    requires i < |s|
    ensures multiset(s[i := s[0]][0 := s[i]]) == multiset(s)
  {
    var t := s[i := s[0]];
    assert multiset(t) == multiset(s)[s[i] := multiset(s)[s[i]] - 1] + multiset{s[0]};
    assert multiset(t[0 := s[i]]) == multiset(t)[t[0] := multiset(t)[t[0]] - 1] + multiset{s[i]};
  }

  /** The blocking policy comes first, every other policy stays, and nothing is added unless it was missing. */
  lemma HoistedPutsBlockingFirst(policies: seq<string>, id: string)
    ensures var r := Hoisted(policies, id);
            && r != [] && r[0] == id
            && multiset(r) == (if id in policies then multiset(policies) else multiset(policies) + multiset{id})
  {
    IndexOfFinds(policies, id, 0);
    var i := IndexOf(policies, id, 0);
    if i < |policies| {
      SwapKeepsAll(policies, i);
    }
  }

  method FindPolicy(policies: array<string>, id: string) returns (i: nat)
    ensures i == IndexOf(policies[..], id, 0)
  {
    i := 0;
    while i < policies.Length && policies[i] != id
      invariant i <= policies.Length && IndexOf(policies[..], id, i) == IndexOf(policies[..], id, 0)
    {
      i := i + 1;
    }
  }

  method Prepended(policies: array<string>, id: string) returns (r: array<string>)
    ensures fresh(r) && r[..] == [id] + policies[..]
  {
    r := new string[policies.Length + 1];
    r[0] := id;
    for i := 0 to policies.Length
      invariant r[0] == id && r[1..i + 1] == policies[..i]
    {
      r[i + 1] := policies[i];
    }
    assert r[..] == [r[0]] + r[1..policies.Length + 1];
  }

  /** Swaps in place when the policy is there; only otherwise a new slice is made. */
  method HoistBlockingPolicy(policies: array<string>, id: string) returns (r: array<string>)
    modifies policies
    ensures r[..] == Hoisted(old(policies[..]), id)
    ensures r == policies || (fresh(r) && policies[..] == old(policies[..]))
  {
    var i := FindPolicy(policies, id);
    IndexOfFinds(policies[..], id, 0);
    if i < policies.Length {
      policies[0], policies[i] := policies[i], policies[0];
      r := policies;
    } else {
      r := Prepended(policies, id);
    }
  }
}
