/** Signed results and their acceptance (geniusnew/results.py), as values: an ideal signature is
    carried by every result here, because only signed ones reach these checks. */
module Results {
  import opened Prelude
  import opened Handoffs

  datatype Reason =
    | WorkCompleted | ToolNotGranted | WorkerFailed | OutputRejected
    | PayloadMutated | HandoffExpired | ResourceExhausted | IsolationViolated

  /** A failed result carries no output. */
  datatype Status = Succeeded(output: Text) | Failed

  datatype Result = Result(jobId: Text, workerAgentId: Text, digest: Digest, status: Status, reason: Reason,
                           producedAt: int)

  /** `produce`: what a worker signs; `None` when the runner must not sign it. */
  function Produce(h: Handoff, status: Status, reason: Reason, now: int): Option<Result> {
    if !(0 < now <= MAX_TIME) || now < h.issuedAt || now >= h.expiresAt then None
    else if status.Succeeded? && status.output == [] then None
    else Some(Result(h.jobId, h.workerAgentId, Sha256(h), status, reason, now))
  }

  /** `accept`: whether a signed result answers this handoff, unaltered and in time. */
  predicate Accepts(r: Result, h: Handoff, now: int) {
    && r.jobId == h.jobId && r.workerAgentId == h.workerAgentId && r.digest == Sha256(h)
    && (r.status.Succeeded? ==> r.status.output != [])
    && 0 < r.producedAt <= MAX_TIME
    && h.issuedAt <= r.producedAt <= now
    && r.producedAt < h.expiresAt
    && now < h.expiresAt
  }

  /** A result signed at dispatch time `d` answers its handoff at time `t` exactly when
      `d <= t < expires`, and no other handoff ever. */
  lemma AcceptedExactlyInTime(h: Handoff, other: Handoff, status: Status, reason: Reason, d: int, t: int)
    requires Produce(h, status, reason, d).Some?
    ensures Accepts(Produce(h, status, reason, d).value, other, t) <==> other == h && d <= t < h.expiresAt
  {
    var r := Produce(h, status, reason, d).value;
    assert r.digest == Sha256(other) ==> other == h;
  }

  /** Signing refuses exactly what acceptance could never take. */
  lemma SignedIsAcceptable(h: Handoff, status: Status, reason: Reason, d: int)
    ensures Produce(h, status, reason, d).Some? <==>
            exists t :: Accepts(Result(h.jobId, h.workerAgentId, Sha256(h), status, reason, d), h, t)
  {
    var r := Result(h.jobId, h.workerAgentId, Sha256(h), status, reason, d);
    if Produce(h, status, reason, d).Some? {
      assert Accepts(r, h, d);
    }
  }
}
