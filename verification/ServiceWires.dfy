/** Where the lifecycle and the wires meet: what the service model issues, admits, signs and accepts
    as values is what goes over the wire and comes back (geniusnew/contracts.py, geniusnew/results.py,
    geniusnew/wiring.py). */
module ServiceWires {
  import opened Prelude
  import opened Json
  import opened JsonRoundTrip
  import opened Wire
  import opened WireContract
  import opened Handoffs
  import opened Contracts
  import opened ContractsExact
  import opened Results
  import opened ResultWires
  import opened Ledger

  /** The handoff key, the digest, and the worker's key. */
  datatype Keyring = Keyring(c: Crypto, worker: WorkerKey)

  ghost predicate KeysIdeal(k: Keyring) { Ideal(k.c) && WorkerIdeal(k.worker) }

  function HandoffBytes(k: Keyring, h: Handoff): seq<Byte> {
    PrintIsPrintable(HandoffObject(h, PayloadHash(k.c, h.text), Signature(k.c, h)));
    HandoffWire(k.c, h)
  }

  function ResultBytes(k: Keyring, r: Result): seq<Byte> {
    PrintIsPrintable(ResultObject(k.c, r, ResultSignature(k.c, k.worker, r)));
    ResultWire(k.c, k.worker, r)
  }

  /** Within the wire bound, and read back as itself. */
  predicate HandoffOnWire(k: Keyring, h: Handoff) { |HandoffBytes(k, h)| <= MAX_WIRE_BYTES && Readable(h) }

  predicate ResultOnWire(k: Keyring, r: Result) { |ResultBytes(k, r)| <= MAX_WIRE_BYTES && ResultReadable(r) }

  /** A world whose issuer and worker write such wires. */
  ghost predicate WiredBy(w: World, k: Keyring) {
    (forall h :: w.issues(h) <==> HandoffOnWire(k, h)) && (forall r :: w.signs(r) <==> ResultOnWire(k, r))
  }

  /** `_revalidate`: the validator that the subject's grant names. */
  function Revalidated(k: Keyring, wire: seq<Byte>, policy: Policy, subject: Text, jobId: Text, now: int): Option<Handoff> {
    match GrantFor(policy.grants, subject)
    case None => None
    case Some(grant) =>
      if grant.requiresApproval then ValidatePending(k.c, wire, policy, subject, jobId, now)
      else Validate(k.c, wire, policy, subject, jobId, now)
  }

  lemma ClockFits(at: int)
    requires 0 < at <= MAX_TIME + 300
    ensures IntFits(at)
  {
    FewerDigits(at, 10);
    assert Pow10(10) == 10 * Pow10(9) && Pow10(9) == 10 * Pow10(8) && Pow10(8) == 10 * Pow10(7) && Pow10(7) == 10 * Pow10(6);
    assert Pow10(6) == 10 * Pow10(5) && Pow10(5) == 10 * Pow10(4) && Pow10(4) == 10 * Pow10(3) && Pow10(3) == 1000;
  }

  /** What issuing refuses beyond an unknown subject: an empty text, and a wire out of bounds. */
  lemma IssueRefuses(c: Crypto, policy: Policy, subject: Text, jobId: Text, text: Text, at: int)
    requires PolicyValid(policy) && jobId != [] && InTime(at) && GrantFor(policy.grants, subject).Some?
    ensures var h := Issued(policy, GrantFor(policy.grants, subject).value, jobId, text, at);
            Issue(c, policy, subject, jobId, text, at) ==
            if text != [] && |HandoffWire(c, h)| <= MAX_WIRE_BYTES then Some(HandoffWire(c, h)) else None
  {
    hide HandoffWire, IntFits;
    ClockFits(at);
    ClockFits(at + policy.ttl);
  }

  lemma ReadableText(h: Handoff)
    requires FactsReadable(h)
    ensures Readable(h) <==> WithJoinedText(h) == h
  {
    ReadableWhenJoined(h);
    JoinKeepsPairFree(h.text);
  }

  /** A request becomes a handoff exactly when the issuer writes its wire and the service's own check
      reads that handoff back from it. */
  lemma IssuesExactly(w: World, k: Keyring, subject: Text, jobId: Text, text: Text, at: int, h: Handoff)
    requires WiredBy(w, k) && KeysIdeal(k) && PolicyValid(w.policy)
    ensures IssueFor(w, subject, jobId, text, at) == Some(h) <==>
            && JobIdOk(jobId) && InTime(at) && h.text == text
            && Issue(k.c, w.policy, subject, jobId, text, at) == Some(HandoffBytes(k, h))
            && Revalidated(k, HandoffBytes(k, h), w.policy, subject, jobId, at) == Some(h)
  {
    hide Issue, PolicyValid, Readable, FactsReadable, Validate, ValidatePending, HandoffWire, Octets, Ideal, Join;
    if GrantFor(w.policy.grants, subject).Some? && JobIdOk(jobId) && InTime(at) {
      var g := Issued(w.policy, GrantFor(w.policy.grants, subject).value, jobId, text, at);
      IssueRefuses(k.c, w.policy, subject, jobId, text, at);
      TtlIsPositive(w.policy);
      ReadableWhenJoined(g);
      if FactsReadable(g) {
        ReadableText(g);
      }
      if Issue(k.c, w.policy, subject, jobId, text, at).Some? {
        IssuedIsAcceptedOnce(k.c, HandoffBytes(k, g), w.policy, subject, jobId, text, at, at);
      }
    }
    IssueNeedsGrant(k.c, w.policy, subject, jobId, text, at);
  }

  lemma TtlIsPositive(policy: Policy)
    requires PolicyValid(policy)
    ensures policy.ttl >= 1
  {
  }

  lemma IssueNeedsGrant(c: Crypto, policy: Policy, subject: Text, jobId: Text, text: Text, at: int)
    ensures Issue(c, policy, subject, jobId, text, at).Some? ==> GrantFor(policy.grants, subject).Some?
  {
  }

  /** A handoff on the wire is admissible exactly when revalidating its wire gives it back. */
  lemma AdmissibleExactly(w: World, k: Keyring, subject: Text, jobId: Text, h: Handoff, now: int)
    requires WiredBy(w, k) && KeysIdeal(k) && PolicyValid(w.policy) && w.issues(h) && InTime(h.issuedAt)
    ensures Admissible(w, subject, jobId, h, now) <==>
            Revalidated(k, HandoffBytes(k, h), w.policy, subject, jobId, now) == Some(h)
  {
    hide Issue, PolicyValid, Readable, Validate, ValidatePending, HandoffWire, Ideal;
    ValidatorsAcceptExactlyIssued(k.c, HandoffBytes(k, h), w.policy, subject, jobId, now, h);
    if Trusted(w.policy, subject, jobId, h) {
      IssueRefuses(k.c, w.policy, subject, jobId, h.text, h.issuedAt);
    }
  }

  /** A worker's answer becomes a result exactly when it signs a wire for it and the service reads that
      result back from the wire. */
  lemma SignsExactly(w: World, k: Keyring, h: Handoff, status: Status, reason: Reason, at: int, r: Result)
    requires WiredBy(w, k) && KeysIdeal(k) && h.jobId != [] && h.workerAgentId != []
    ensures SignedFor(w, h, status, reason, at) == Some(r) <==>
            && r.status == status
            && ProduceWire(k.c, k.worker, h, status, reason, at) == Some(ResultBytes(k, r))
            && Accepted(k.c, k.worker, ResultBytes(k, r), h, at) == Some(r)
  {
    hide Decode, KeySet, ResultReadable, Accepted, ResultWire, Ideal, WorkerIdeal, PairFree;
    var produced := Produce(h, status, reason, at);
    if produced.Some? {
      var q := produced.value;
      DecodedResult(k.c, k.worker, ResultBytes(k, q), q);
      ReadableOutput(q);
      if ProduceWire(k.c, k.worker, h, status, reason, at).Some? {
        ProducedForm(k.c, k.worker, h, status, reason, at, at, ResultBytes(k, q));
        SignedWireTakenInTime(k.c, k.worker, h, status, reason, at, at, ResultBytes(k, q));
      }
    }
  }

  lemma ReadableOutput(r: Result)
    ensures ResultReadable(r) <==> PairFree(r.jobId) && PairFree(r.workerAgentId) && WithJoinedOutput(r) == r
  {
    if r.status.Succeeded? {
      JoinKeepsPairFree(r.status.output);
    }
  }

  /** A result on the wire answers a handoff exactly when accepting its wire gives it back. */
  lemma AcceptsExactly(w: World, k: Keyring, h: Handoff, r: Result, now: int)
    requires WiredBy(w, k) && KeysIdeal(k) && w.signs(r) && h.jobId != [] && h.workerAgentId != []
    ensures Accepts(r, h, now) <==> Accepted(k.c, k.worker, ResultBytes(k, r), h, now) == Some(r)
  {
    hide Accepts, Accepted, ResultWire, ResultReadable, Ideal, WorkerIdeal;
    AcceptedExactlyAsSigned(k.c, k.worker, ResultBytes(k, r), h, now, r);
  }
}
