/** What the two signed wires say, field by field (geniusnew/contracts.py, geniusnew/results.py): every
    name and value of a handoff and of a result, what each signature covers, and the facts a
    validated handoff carries. */
module WireFields {
  import opened Prelude
  import opened Json
  import opened JsonRoundTrip
  import opened WireContract
  import opened Handoffs
  import opened Contracts
  import opened ContractsExact
  import opened Results
  import opened ResultWires

  /** A dictionary's value under a key. */
  function Lookup(fields: Fields, key: Text): Option<Value> {
    match fields
    case NoFields => None
    case Field(k, value, rest) => if k == key then Some(value) else Lookup(rest, key)
  }

  lemma {:induction false} LookupZip(keys: seq<Text>, values: seq<Value>, i: nat)
    requires |keys| == |values| && KeysRise(keys) && i < |keys|
    ensures Lookup(Zip(keys, values), keys[i]) == Some(values[i])
  {
    if i > 0 {
      assert keys[i] in keys[1..] by { assert keys[1..][i - 1] == keys[i]; }
      RisingBelow(keys, keys[i]);
      LessIsStrict(keys[0], keys[i]);
      LookupZip(keys[1..], values[1..], i - 1);
    }
  }

  lemma HandoffField(h: Handoff, payloadHash: Text, signature: Text, i: nat)
    requires i < 15
    ensures Lookup(HandoffObject(h, payloadHash, signature).fields, Ascii(KeyName(i)))
            == Some(HandoffValues(h, payloadHash, signature)[i])
  {
    hide Lookup, HandoffValues, KeysRise, Zip;
    HandoffKeysRise();
    LookupZip(HandoffKeys(), HandoffValues(h, payloadHash, signature), i);
  }

  lemma EarlyFields(h: Handoff, payloadHash: Text, signature: Text)
    ensures var fields := HandoffObject(h, payloadHash, signature).fields;
            && Lookup(fields, Ascii("approval_state")) == Some(Str(ApprovalState(h.pending)))
            && Lookup(fields, Ascii("expires_at")) == Some(Num(h.expiresAt))
            && Lookup(fields, Ascii("issued_at")) == Some(Num(h.issuedAt))
            && Lookup(fields, Ascii("job_id")) == Some(Str(h.jobId))
            && Lookup(fields, Ascii("orchestrator_id")) == Some(Str(h.orchestratorId))
            && Lookup(fields, Ascii("payload")) == Some(PayloadValue(h.text))
            && Lookup(fields, Ascii("payload_sha256")) == Some(Str(payloadHash))
            && Lookup(fields, Ascii("policy_version")) == Some(Str(h.policyVersion))
  {
    hide Lookup, Ascii, Zip, PayloadValue, ApprovalState, TextItems;
    forall i: nat | i < 15
      ensures Lookup(HandoffObject(h, payloadHash, signature).fields, Ascii(KeyName(i)))
              == Some(HandoffValues(h, payloadHash, signature)[i])
    {
      HandoffField(h, payloadHash, signature, i);
    }
    assert KeyName(0) == "approval_state" && KeyName(1) == "expires_at" && KeyName(2) == "issued_at";
    assert KeyName(3) == "job_id" && KeyName(4) == "orchestrator_id" && KeyName(5) == "payload";
    assert KeyName(6) == "payload_sha256" && KeyName(7) == "policy_version";
  }

  lemma LateFields(h: Handoff, payloadHash: Text, signature: Text)
    ensures var fields := HandoffObject(h, payloadHash, signature).fields;
            && Lookup(fields, Ascii("sandbox_profile")) == Some(Str(h.sandboxProfile))
            && Lookup(fields, Ascii("signature")) == Some(Str(signature))
            && Lookup(fields, Ascii("tier")) == Some(Str(h.tier))
            && Lookup(fields, Ascii("tools")) == Some(Arr(TextItems(h.tools)))
            && Lookup(fields, Ascii("user_id")) == Some(Str(h.userId))
            && Lookup(fields, Ascii("version")) == Some(Str(Version()))
            && Lookup(fields, Ascii("worker_agent_id")) == Some(Str(h.workerAgentId))
  {
    hide Lookup, Ascii, Zip, PayloadValue, ApprovalState, TextItems, Version;
    forall i: nat | i < 15
      ensures Lookup(HandoffObject(h, payloadHash, signature).fields, Ascii(KeyName(i)))
              == Some(HandoffValues(h, payloadHash, signature)[i])
    {
      HandoffField(h, payloadHash, signature, i);
    }
    assert KeyName(8) == "sandbox_profile" && KeyName(9) == "signature" && KeyName(10) == "tier";
    assert KeyName(11) == "tools" && KeyName(12) == "user_id" && KeyName(13) == "version" && KeyName(14) == "worker_agent_id";
  }

  /** An issued wire is the print of an object whose facts are the policy's for that subject, whose
      digest is its payload's, and whose signature covers everything else. */
  lemma IssuedFields(c: Crypto, policy: Policy, subject: Text, jobId: Text, text: Text, now: int, wire: seq<Byte>)
    returns (fields: Fields, grant: Grant)
    requires Issue(c, policy, subject, jobId, text, now) == Some(wire)
    ensures wire == Print(Obj(fields)) && |wire| <= 16_384
    ensures grant in policy.grants && grant.subject == subject
    ensures Lookup(fields, Ascii("approval_state"))
            == Some(Str(if grant.requiresApproval then Ascii("PENDING_APPROVAL") else Ascii("NOT_REQUIRED")))
    ensures Lookup(fields, Ascii("expires_at")) == Some(Num(now + policy.ttl))
    ensures Lookup(fields, Ascii("issued_at")) == Some(Num(now))
    ensures Lookup(fields, Ascii("job_id")) == Some(Str(jobId))
    ensures Lookup(fields, Ascii("orchestrator_id")) == Some(Str(policy.orchestratorId))
    ensures Lookup(fields, Ascii("payload")) == Some(Obj(Field(Ascii("text"), Str(text), NoFields)))
    ensures Lookup(fields, Ascii("payload_sha256"))
            == Some(Str(c.sha256(Print(Obj(Field(Ascii("text"), Str(text), NoFields))))))
    ensures Lookup(fields, Ascii("policy_version")) == Some(Str(policy.version))
    ensures Lookup(fields, Ascii("sandbox_profile")) == Some(Str(grant.sandboxProfile))
    ensures Lookup(fields, Ascii("signature")) == Some(Str(c.sign(Print(Obj(Without(fields, Ascii("signature")))))))
    ensures Lookup(fields, Ascii("tier")) == Some(Str(grant.tier))
    ensures Lookup(fields, Ascii("tools")) == Some(Arr(TextItems(grant.tools)))
    ensures Lookup(fields, Ascii("user_id")) == Some(Str(grant.userId))
    ensures Lookup(fields, Ascii("version")) == Some(Str(Ascii("geniusnew-handoff-v2")))
    ensures Lookup(fields, Ascii("worker_agent_id")) == Some(Str(grant.workerAgentId))
  {
    hide Lookup, Ascii, Print, TextItems, Without, Zip;
    grant := GrantFor(policy.grants, subject).value;
    var h := Issued(policy, grant, jobId, text, now);
    var hash, signature := PayloadHash(c, text), Signature(c, h);
    fields := HandoffObject(h, hash, signature).fields;
    SignedPart(h, hash, signature);
    EarlyFields(h, hash, signature);
    LateFields(h, hash, signature);
  }

  lemma {:induction false} TheGrant(grants: seq<Grant>, i: nat)
    requires i < |grants| && forall a, b :: 0 <= a < b < |grants| ==> grants[a].subject != grants[b].subject
    ensures GrantFor(grants, grants[i].subject) == Some(grants[i])
  {
    if i > 0 {
      assert forall a :: 0 <= a < |grants| - 1 ==> grants[1..][a] == grants[a + 1];
      TheGrant(grants[1..], i - 1);
    }
  }

  /** A handoff is issued exactly for a subject with a grant, a job, a text, times that can be
      printed and a wire within its bound. */
  lemma IssuesWhen(c: Crypto, policy: Policy, subject: Text, jobId: Text, text: Text, now: int)
    requires PolicyValid(policy)
    ensures Issue(c, policy, subject, jobId, text, now).Some? <==>
            exists grant: Grant ::
              && grant in policy.grants && grant.subject == subject
              && jobId != [] && text != [] && IntFits(now) && IntFits(now + policy.ttl)
              && |HandoffWire(c, Handoff(jobId, grant.userId, policy.orchestratorId, grant.workerAgentId,
                                         grant.tier, grant.tools, grant.sandboxProfile, grant.requiresApproval,
                                         policy.version, now, now + policy.ttl, text))| <= 16_384
  {
    hide HandoffWire;
    forall grant: Grant | grant in policy.grants && grant.subject == subject
      ensures GrantFor(policy.grants, subject) == Some(grant)
    {
      var i :| 0 <= i < |policy.grants| && policy.grants[i] == grant;
      TheGrant(policy.grants, i);
    }
  }

  /** What either validator returns carries the trusted policy's facts for that subject and nothing the
      wire could choose but its issue time and text, and only while that time lasts. */
  lemma ValidatedFacts(c: Crypto, wire: seq<Byte>, policy: Policy, subject: Text, jobId: Text, now: int)
    returns (grant: Grant)
    requires Ideal(c) && PolicyValid(policy)
    requires Validate(c, wire, policy, subject, jobId, now).Some? || ValidatePending(c, wire, policy, subject, jobId, now).Some?
    ensures grant in policy.grants && grant.subject == subject
    ensures !grant.requiresApproval ==> ValidatePending(c, wire, policy, subject, jobId, now) == None
    ensures grant.requiresApproval ==> Validate(c, wire, policy, subject, jobId, now) == None
    ensures var h := if grant.requiresApproval then ValidatePending(c, wire, policy, subject, jobId, now).value
                     else Validate(c, wire, policy, subject, jobId, now).value;
            && h == Handoff(jobId, grant.userId, policy.orchestratorId, grant.workerAgentId, grant.tier, grant.tools,
                            grant.sandboxProfile, grant.requiresApproval, policy.version, h.issuedAt,
                            h.issuedAt + policy.ttl, h.text)
            && h.text != [] && h.issuedAt <= now < h.issuedAt + policy.ttl <= h.issuedAt + 300
  {
    hide Validate, ValidatePending, Ideal, Readable, Issue;
    var v, p := Validate(c, wire, policy, subject, jobId, now), ValidatePending(c, wire, policy, subject, jobId, now);
    if v.Some? {
      ValidatorsAcceptExactlyIssued(c, wire, policy, subject, jobId, now, v.value);
    }
    if p.Some? {
      ValidatorsAcceptExactlyIssued(c, wire, policy, subject, jobId, now, p.value);
    }
    grant := GrantFor(policy.grants, subject).value;
  }

  // ---------------------------------------------------------------- results

  lemma ResultField(c: Crypto, r: Result, signature: Text, i: nat)
    requires i < 10
    ensures Lookup(ResultObject(c, r, signature).fields, Ascii(ResultKeyName(i))) == Some(ResultValues(c, r, signature)[i])
  {
    hide Lookup, ResultValues, KeysRise, Zip;
    ResultKeysRise();
    LookupZip(ResultKeys(), ResultValues(c, r, signature), i);
  }

  /** The codes a result may give. */
  lemma ReasonsSpelled()
    ensures ReasonText(WorkCompleted) == Ascii("WORK_COMPLETED") && ReasonText(ToolNotGranted) == Ascii("TOOL_NOT_GRANTED")
    ensures ReasonText(WorkerFailed) == Ascii("WORKER_FAILED") && ReasonText(OutputRejected) == Ascii("OUTPUT_REJECTED")
    ensures ReasonText(PayloadMutated) == Ascii("PAYLOAD_MUTATED") && ReasonText(HandoffExpired) == Ascii("HANDOFF_EXPIRED")
    ensures ReasonText(ResourceExhausted) == Ascii("RESOURCE_EXHAUSTED")
    ensures ReasonText(IsolationViolated) == Ascii("ISOLATION_VIOLATED")
  {
    hide Ascii;
  }

  /** Those eight and no others. */
  lemma ReasonsClosed()
    ensures forall t :: ReadReason(t).Some? <==> exists r :: t == ReasonText(r)
  {
    hide ReasonText, ReadReason;
    forall t
      ensures ReadReason(t).Some? <==> exists r :: t == ReasonText(r)
    {
      if ReadReason(t).Some? {
        ReasonInverts(t);
      }
      forall r | t == ReasonText(r)
        ensures ReadReason(t).Some?
      {
        ReasonReadsBack(r);
      }
    }
  }

  /** A signed wire is the print of an object that names its job, worker, handoff and time, carries an
      output with its digest only when it succeeded, and is signed over all of it. */
  lemma SignedFields(c: Crypto, k: WorkerKey, h: Handoff, status: Status, reason: Reason, now: int, wire: seq<Byte>)
    returns (fields: Fields)
    requires ProduceWire(c, k, h, status, reason, now) == Some(wire)
    ensures wire == Print(Obj(fields)) && h.issuedAt <= now < h.expiresAt && 0 < now <= 4_102_444_800
    ensures Lookup(fields, Ascii("handoff_sha256")) == Some(Str(c.sha256(HandoffWire(c, h))))
    ensures Lookup(fields, Ascii("job_id")) == Some(Str(h.jobId))
    ensures status.Succeeded? ==>
              && status.output != []
              && var payload := Obj(Field(Ascii("text"), Str(status.output), NoFields));
              && Lookup(fields, Ascii("output")) == Some(payload)
              && Lookup(fields, Ascii("output_sha256")) == Some(Str(c.sha256(Print(payload))))
              && Lookup(fields, Ascii("status")) == Some(Str(Ascii("SUCCEEDED")))
    ensures status.Failed? ==>
              && Lookup(fields, Ascii("output")) == Some(Null) == Lookup(fields, Ascii("output_sha256"))
              && Lookup(fields, Ascii("status")) == Some(Str(Ascii("FAILED")))
    ensures Lookup(fields, Ascii("produced_at")) == Some(Num(now))
    ensures Lookup(fields, Ascii("reason_code")) == Some(Str(ReasonText(reason)))
    ensures Lookup(fields, Ascii("signature")) == Some(Str(k.sign(Print(Obj(Without(fields, Ascii("signature")))))))
    ensures Lookup(fields, Ascii("version")) == Some(Str(Ascii("geniusnew-result-v2")))
    ensures Lookup(fields, Ascii("worker_agent_id")) == Some(Str(h.workerAgentId))
  {
    hide Lookup, Ascii, Print, Without, Zip, ReasonText, Decode, HandoffWire;
    var r := Produce(h, status, reason, now).value;
    var signature := ResultSignature(c, k, r);
    fields := ResultObject(c, r, signature).fields;
    SignedResultPart(c, r, signature);
    forall i: nat | i < 10
      ensures Lookup(fields, Ascii(ResultKeyName(i))) == Some(ResultValues(c, r, signature)[i])
    {
      ResultField(c, r, signature, i);
    }
    assert ResultKeyName(0) == "handoff_sha256" && ResultKeyName(1) == "job_id" && ResultKeyName(2) == "output";
    assert ResultKeyName(3) == "output_sha256" && ResultKeyName(4) == "produced_at" && ResultKeyName(5) == "reason_code";
    assert ResultKeyName(6) == "signature" && ResultKeyName(7) == "status" && ResultKeyName(8) == "version";
    assert ResultKeyName(9) == "worker_agent_id";
  }

  /** A worker has something to sign at `now` exactly when the handoff is current, the audit clock has
      not run out and a success has an output; what it signs is then acceptable at once. */
  lemma SignsWhen(h: Handoff, status: Status, reason: Reason, now: int)
    ensures Produce(h, status, reason, now).Some? <==>
            && 0 < now <= 4_102_444_800 && h.issuedAt <= now < h.expiresAt && status != Succeeded([])
    ensures Produce(h, status, reason, now).Some? ==>
              Accepts(Produce(h, status, reason, now).value, h, now)
  {
  }
}
