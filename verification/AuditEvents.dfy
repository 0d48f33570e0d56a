/** What a security decision may be recorded as (geniusnew/audit.py): no free text, every field
    bounded by what it costs once serialized. */
module AuditEvents {
  import opened Prelude
  import opened Json

  const MAX_IDENTIFIER_BYTES := 160
  const MAX_EVENT_BYTES := 8192

  datatype AuditEvent = AuditEvent(
    traceId: Text, jobId: Text, component: Text, instanceId: Text, subject: Text, action: Text, decision: Text,
    reasonCode: Text, policyVersion: Text, constitutionVersion: Text, handoffSha: Text, payloadSha: Text,
    occurredAt: int, approvalHash: Option<Text>, bindings: Option<Bindings>)

  /** What the second event version adds. */
  datatype Bindings = Bindings(apiSubjectSha: Text, resultSha: Option<Text>)

  // ---------------------------------------------------------------- field rules

  /** `str.isspace`. */
  predicate IsWhite(c: Code) {
    9 <= c <= 13 || 28 <= c <= 32 || c in {0x85, 0xA0, 0x1680, 0x2028, 0x2029, 0x202F, 0x205F, 0x3000} || 0x2000 <= c <= 0x200A
  }

  /** Bounded by serialized size: a single emoji costs twelve bytes. */
  predicate Identifier(t: Text) {
    t != [] && (forall i :: 0 <= i < |t| ==> !IsWhite(t[i])) && |PrintString(t)| <= MAX_IDENTIFIER_BYTES
  }

  predicate Lower(c: Code) { 97 <= c <= 122 }
  predicate Upper(c: Code) { 65 <= c <= 90 }

  predicate InstanceId(t: Text) {
    && 1 <= |t| <= 63 && t[0] != 45
    && forall i :: 0 <= i < |t| ==> Lower(t[i]) || IsDigit(t[i]) || t[i] == 45
  }

  predicate IsReason(t: Text) {
    && 1 <= |t| <= 64 && Upper(t[0])
    && forall i :: 0 <= i < |t| ==> Upper(t[i]) || IsDigit(t[i]) || t[i] == 95
  }

  predicate IsAction(t: Text) {
    || t == Ascii("HANDOFF_ISSUED") || t == Ascii("HANDOFF_ADMITTED") || t == Ascii("HANDOFF_REJECTED")
    || t == Ascii("APPROVAL_GRANTED") || t == Ascii("APPROVAL_CONSUMED") || t == Ascii("APPROVAL_REVOKED")
    || t == Ascii("EXECUTION_DISPATCHED") || t == Ascii("RESULT_ACCEPTED") || t == Ascii("RESULT_REJECTED")
  }

  predicate IsDecision(t: Text) { t == Ascii("ALLOWED") || t == Ascii("DENIED") }

  predicate IsComponent(t: Text) {
    || t == Ascii("orchestrator") || t == Ascii("gateway") || t == Ascii("worker") || t == Ascii("monitor")
    || t == Ascii("forensics")
  }

  predicate BindingsValid(action: Text, b: Bindings) {
    && IsHexText(b.apiSubjectSha, 64)
    && (if action == Ascii("RESULT_ACCEPTED") then b.resultSha.Some? && IsHexText(b.resultSha.value, 64) else b.resultSha.None?)
  }

  predicate EventValid(e: AuditEvent) {
    && Identifier(e.traceId) && Identifier(e.jobId) && Identifier(e.subject) && Identifier(e.policyVersion)
    && Identifier(e.constitutionVersion)
    && IsComponent(e.component) && InstanceId(e.instanceId)
    && IsHexText(e.handoffSha, 64) && IsHexText(e.payloadSha, 64)
    && (e.approvalHash.Some? ==> IsHexText(e.approvalHash.value, 64))
    && IsAction(e.action) && IsDecision(e.decision) && IsReason(e.reasonCode)
    && 0 < e.occurredAt <= MAX_TIME
    && (e.bindings.Some? ==> BindingsValid(e.action, e.bindings.value))
  }

  // ---------------------------------------------------------------- the serialized event

  function MaybeStr(t: Option<Text>): Value { if t.None? then Null else Str(t.value) }

  function ActorText(e: AuditEvent): Text { e.component + [COLON] + e.instanceId }

  /** Every field under its key, in key order; the two versions differ in three keys. */
  function EventFields(e: AuditEvent): Fields {
    Field(Ascii("action"), Str(e.action), Field(Ascii("actor"), Str(ActorText(e)), ApiSubject(e)))
  }

  function ApiSubject(e: AuditEvent): Fields {
    var rest := Field(Ascii("approval_record_hash"), MaybeStr(e.approvalHash),
                Field(Ascii("constitution_version"), Str(e.constitutionVersion),
                Field(Ascii("decision"), Str(e.decision), Version(e))));
    if e.bindings.None? then rest else Field(Ascii("api_subject_sha256"), Str(e.bindings.value.apiSubjectSha), rest)
  }

  function Version(e: AuditEvent): Fields {
    if e.bindings.None? then Middle(e) else Field(Ascii("event_version"), Num(2), Middle(e))
  }

  function Middle(e: AuditEvent): Fields {
    Field(Ascii("handoff_sha256"), Str(e.handoffSha),
    Field(Ascii("job_id"), Str(e.jobId),
    Field(Ascii("occurred_at"), Num(e.occurredAt),
    Field(Ascii("payload_sha256"), Str(e.payloadSha),
    Field(Ascii("policy_version"), Str(e.policyVersion),
    Field(Ascii("reason_code"), Str(e.reasonCode), ResultSha(e)))))))
  }

  function ResultSha(e: AuditEvent): Fields {
    var rest := Field(Ascii("subject"), Str(e.subject), Field(Ascii("trace_id"), Str(e.traceId), NoFields));
    if e.bindings.None? then rest else Field(Ascii("result_sha256"), MaybeStr(e.bindings.value.resultSha), rest)
  }

  function EventValue(e: AuditEvent): Value { Obj(EventFields(e)) }

  function EventBytes(e: AuditEvent): Text { Print(EventValue(e)) }

  // ---------------------------------------------------------------- its size

  predicate Unescaped(t: Text) {
    forall i :: 0 <= i < |t| ==> 32 <= t[i] <= 126 && t[i] != QUOTE && t[i] != BACKSLASH
  }

  lemma {:induction false} EscapeConcat(a: Text, b: Text)
    ensures Escape(a + b) == Escape(a) + Escape(b)
  {
    if a == [] {
      assert a + b == b;
    } else {
      assert (a + b)[1..] == a[1..] + b;
      EscapeConcat(a[1..], b);
    }
  }

  /** Such text is printed as it is. */
  lemma {:induction false} UnescapedPrints(t: Text)
    requires Unescaped(t)
    ensures |PrintString(t)| == |t| + 2
  {
    if t != [] {
      UnescapedPrints(t[1..]);
    }
  }

  /** Nothing costs more than twelve bytes a character. */
  lemma {:induction false} EscapeAtMost(t: Text)
    ensures |PrintString(t)| <= 12 * |t| + 2
  {
    if t != [] {
      assert |EscapeCode(t[0])| <= 12;
      EscapeAtMost(t[1..]);
    }
  }

  lemma {:induction false} DigitsMonotone(m: nat, n: nat)
    requires m <= n
    ensures |Digits(m)| <= |Digits(n)|
  {
    if m >= 10 {
      DigitsMonotone(m / 10, n / 10);
    }
  }

  lemma FieldAdds(key: Text, v: Value, rest: Fields)
    ensures |PrintFields(Field(key, v, rest))| ==
            |PrintString(key)| + 1 + |Print(v)| + (if rest.NoFields? then 0 else 1 + |PrintFields(rest)|)
  {
  }

  lemma KeyCost(s: string, v: Value, bound: nat, rest: Fields)
    requires |Print(v)| <= bound
    ensures |PrintFields(Field(Ascii(s), v, rest))| <= 12 * |s| + 4 + bound + |PrintFields(rest)|
  {
    EscapeAtMost(Ascii(s));
    FieldAdds(Ascii(s), v, rest);
  }

  lemma DigestCost(t: Text)
    requires IsHexText(t, 64)
    ensures |Print(Str(t))| == 66
  {
    UnescapedPrints(t);
  }

  lemma MaybeDigestCost(t: Option<Text>)
    requires t.Some? ==> IsHexText(t.value, 64)
    ensures |Print(MaybeStr(t))| <= 66
  {
    if t.Some? {
      DigestCost(t.value);
    }
  }

  lemma TimeCost(at: int)
    requires 0 < at <= MAX_TIME
    ensures |Print(Num(at))| <= 10
  {
    DigitsMonotone(at, 9_999_999_999);
    TenDigits();
  }

  lemma TenDigits()
    ensures |Digits(9_999_999_999)| <= 10
  {
    assert |Digits(99_999)| == 5 by {
      assert |Digits(9)| == 1 && |Digits(99)| == 2 && |Digits(999)| == 3;
    }
    assert |Digits(999_999)| == 6 && |Digits(9_999_999)| == 7;
    assert |Digits(99_999_999)| == 8 && |Digits(999_999_999)| == 9;
  }

  lemma ReasonCost(t: Text)
    requires IsReason(t)
    ensures |Print(Str(t))| <= 66
  {
    UnescapedPrints(t);
  }

  /** No action, decision or role is longer than twenty characters. */
  lemma WordCost(t: Text)
    requires IsAction(t) || IsDecision(t) || IsComponent(t)
    ensures |t| <= 20 && |Print(Str(t))| <= 242
  {
    EscapeAtMost(t);
  }

  lemma ActorCost(e: AuditEvent)
    requires IsComponent(e.component) && InstanceId(e.instanceId)
    ensures |Print(Str(ActorText(e)))| <= 318
  {
    WordCost(e.component);
    EscapeConcat(e.component + [COLON], e.instanceId);
    EscapeConcat(e.component, [COLON]);
    UnescapedPrints(e.instanceId);
    EscapeAtMost(e.component);
    EscapeAtMost([COLON]);
  }

  lemma LastFieldsCost(e: AuditEvent)
    requires EventValid(e)
    ensures |PrintFields(ResultSha(e))| <= 734
  {
    hide EventValid, Print, PrintFields, PrintString, Identifier, IsHexText;
    LastFacts(e);
    var trace := Field(Ascii("trace_id"), Str(e.traceId), NoFields);
    NoFieldsCost();
    KeyCost("trace_id", Str(e.traceId), 160, NoFields);
    KeyCost("subject", Str(e.subject), 160, trace);
    if e.bindings.Some? {
      KeyCost("result_sha256", MaybeStr(e.bindings.value.resultSha), 66, Field(Ascii("subject"), Str(e.subject), trace));
    }
  }

  lemma NoFieldsCost()
    ensures PrintFields(NoFields) == []
  {
  }

  lemma LastFacts(e: AuditEvent)
    requires EventValid(e)
    ensures |Print(Str(e.traceId))| <= 160 && |Print(Str(e.subject))| <= 160
    ensures e.bindings.Some? ==> |Print(MaybeStr(e.bindings.value.resultSha))| <= 66
  {
    if e.bindings.Some? {
      MaybeDigestCost(e.bindings.value.resultSha);
    }
  }

  lemma MiddleFacts(e: AuditEvent)
    requires EventValid(e)
    ensures |Print(Str(e.handoffSha))| <= 66 && |Print(Str(e.jobId))| <= 160 && |Print(Num(e.occurredAt))| <= 10
    ensures |Print(Str(e.payloadSha))| <= 66 && |Print(Str(e.policyVersion))| <= 160 && |Print(Str(e.reasonCode))| <= 66
  {
    DigestCost(e.handoffSha);
    DigestCost(e.payloadSha);
    TimeCost(e.occurredAt);
    ReasonCost(e.reasonCode);
  }

  lemma MiddleCost(e: AuditEvent)
    requires EventValid(e)
    ensures |PrintFields(Middle(e))| <= 2230
  {
    hide EventValid, Print, PrintFields, PrintString, ResultSha;
    LastFieldsCost(e);
    MiddleFacts(e);
    var f := ResultSha(e);
    KeyCost("reason_code", Str(e.reasonCode), 66, f);
    f := Field(Ascii("reason_code"), Str(e.reasonCode), f);
    KeyCost("policy_version", Str(e.policyVersion), 160, f);
    f := Field(Ascii("policy_version"), Str(e.policyVersion), f);
    KeyCost("payload_sha256", Str(e.payloadSha), 66, f);
    f := Field(Ascii("payload_sha256"), Str(e.payloadSha), f);
    KeyCost("occurred_at", Num(e.occurredAt), 10, f);
    f := Field(Ascii("occurred_at"), Num(e.occurredAt), f);
    KeyCost("job_id", Str(e.jobId), 160, f);
    f := Field(Ascii("job_id"), Str(e.jobId), f);
    KeyCost("handoff_sha256", Str(e.handoffSha), 66, f);
  }

  lemma FirstFacts(e: AuditEvent)
    requires EventValid(e)
    ensures |Print(Str(e.decision))| <= 242 && |Print(Str(e.action))| <= 242 && |Print(Str(ActorText(e)))| <= 318
    ensures |Print(Str(e.constitutionVersion))| <= 160 && |Print(MaybeStr(e.approvalHash))| <= 66 && |Print(Num(2))| <= 10
    ensures e.bindings.Some? ==> |Print(Str(e.bindings.value.apiSubjectSha))| <= 66
  {
    hide IsAction, IsDecision, IsComponent, InstanceId, IsReason;
    WordCost(e.decision);
    WordCost(e.action);
    ActorCost(e);
    MaybeDigestCost(e.approvalHash);
    TimeCost(2);
    if e.bindings.Some? {
      DigestCost(e.bindings.value.apiSubjectSha);
    }
  }

  /** Whatever a caller puts into an event, its bytes stay under the stored bound. */
  lemma EventSize(e: AuditEvent)
    requires EventValid(e)
    ensures |EventBytes(e)| <= MAX_EVENT_BYTES
  {
    hide EventValid, PrintFields, PrintString, Middle, ActorText;
    MiddleCost(e);
    FirstFacts(e);
    var f := Version(e);
    if e.bindings.Some? {
      KeyCost("event_version", Num(2), 10, Middle(e));
    }
    KeyCost("decision", Str(e.decision), 242, f);
    f := Field(Ascii("decision"), Str(e.decision), f);
    KeyCost("constitution_version", Str(e.constitutionVersion), 160, f);
    f := Field(Ascii("constitution_version"), Str(e.constitutionVersion), f);
    KeyCost("approval_record_hash", MaybeStr(e.approvalHash), 66, f);
    f := Field(Ascii("approval_record_hash"), MaybeStr(e.approvalHash), f);
    if e.bindings.Some? {
      KeyCost("api_subject_sha256", Str(e.bindings.value.apiSubjectSha), 66, f);
    }
    f := ApiSubject(e);
    KeyCost("actor", Str(ActorText(e)), 318, f);
    f := Field(Ascii("actor"), Str(ActorText(e)), f);
    KeyCost("action", Str(e.action), 242, f);
  }
}
