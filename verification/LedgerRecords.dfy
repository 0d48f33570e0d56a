/** What each transaction puts into the log: its one event, field by field (geniusnew/wiring.py,
    geniusnew/audit.py). */
module LedgerRecords {
  import opened Prelude
  import opened Handoffs
  import opened Results
  import opened Ledger
  import opened Service

  /** The event of a handoff, in the audit projection of its identifiers. */
  predicate Tells(w: World, e: Event, h: Handoff, action: Action, reason: ReasonCode, at: int, apiSubject: Text) {
    e == Event(action, reason, w.safe(h.jobId), w.safe(h.userId), w.safe(h.policyVersion), Sha256(h), apiSubject, at,
               e.approval, e.result)
  }

  predicate Bare(e: Event) { e.approval == None && e.result == None }

  /** A transaction that goes through logs exactly this: which action, for which reason, of which job, for
      which caller, at which time, and on which receipt or result. */
  lemma EachIsRecorded(w: World, st: Store, txn: Txn)
    requires Apply(w, st, txn).Some?
    ensures var next := Apply(w, st, txn).value;
            var e := next.events[|st.events|];
            && |next.events| == |st.events| + 1 && next.events[..|st.events|] == st.events && 1 <= e.occurredAt <= 4102444800
            && match txn
               case IssueTxn(subject, h) => Tells(w, e, h, HandoffIssued, OtherReason(0), h.issuedAt, subject) && Bare(e)
               case NoteTxn(subject, h, ofResult, code, at) =>
                 Tells(w, e, h, if ofResult then ResultRejected else HandoffRejected, OtherReason(code), at, subject) && Bare(e)
               case AddTxn(subject, h, now) => Tells(w, e, h, HandoffIssued, AwaitsApproval, h.issuedAt, subject) && Bare(e)
               case GrantTxn(jobId, approver, subject, token, ttl, now) =>
                 && jobId in st.pending && st.pending[jobId].wire.userId != approver
                 && Tells(w, e, st.pending[jobId].wire, ApprovalGranted, OtherReason(0), now, subject)
                 && e.result == None && token in next.tokens && e.approval == Some(next.tokens[token])
               case AdmitDirectTxn(subject, h, now) =>
                 Tells(w, e, h, HandoffAdmitted, OtherReason(0), now, subject) && Bare(e) && !h.pending
               case AdmitApprovedTxn(subject, h, token, now) =>
                 && Tells(w, e, h, HandoffAdmitted, OtherReason(0), now, subject)
                 && e.result == None && token in next.tokens && e.approval == Some(next.tokens[token]) && h.pending
               case CommitTxn(subject, h, now) => Tells(w, e, h, ExecutionDispatched, OtherReason(0), now, subject) && Bare(e)
               case AcceptTxn(subject, h, result, approval, now) =>
                 && Tells(w, e, h, ResultAccepted, OtherReason(0), now, subject)
                 && e.result == Some(result) && e.approval == approval && (approval.Some? <==> h.pending)
               case RefuseTxn(jobId, subject, expired, now) =>
                 && jobId in st.pending && Bare(e)
                 && Tells(w, e, st.pending[jobId].wire, HandoffRejected, if expired then ApprovalExpired else DispatchRefused, now,
                          subject)
  {
    hide Admissible, JobIdOk, Trusted, RecordValid, Waits, Redeems, LivePending, LiveGrant, Accepts;
    var next := Apply(w, st, txn).value.events;
    assert next == st.events + [next[|st.events|]];
  }

  // ---------------------------------------------------------------- what a transaction demands

  /** The facts the policy gives this subject, at a time that has come and not run out. */
  ghost predicate CurrentFor(w: World, subject: Text, jobId: Text, h: Handoff, now: int) {
    exists g :: g in w.policy.grants && g.subject == subject
                && h == Handoff(jobId, g.userId, w.policy.orchestratorId, g.workerAgentId, g.tier, g.tools, g.sandboxProfile,
                                g.requiresApproval, w.policy.version, h.issuedAt, h.issuedAt + w.policy.ttl, h.text)
                && jobId != [] && h.text != [] && h.issuedAt <= now < h.issuedAt + w.policy.ttl
  }

  lemma AdmissibleMeans(w: World, subject: Text, jobId: Text, h: Handoff, now: int)
    requires Admissible(w, subject, jobId, h, now)
    ensures CurrentFor(w, subject, jobId, h, now)
  {
    var g := GrantFor(w.policy.grants, subject).value;
    assert g in w.policy.grants;
  }

  lemma AcceptsMeans(r: Result, h: Handoff, now: int)
    requires Accepts(r, h, now)
    ensures r.jobId == h.jobId && r.workerAgentId == h.workerAgentId && r.digest == Sha256(h)
    ensures h.issuedAt <= r.producedAt <= now < h.expiresAt && 0 < r.producedAt <= 4102444800
    ensures r.status != Succeeded([])
  {
  }

  lemma JobIdMeans(jobId: Text)
    requires JobIdOk(jobId)
    ensures jobId != [] && Octets(jobId) <= 128
  {
  }

  /** Whatever moves a job demands a handoff of the current policy that has not run out, of the kind
      the move is for, and its own evidence: an approver other than the owner, a bounded job id,
      a result that answers this handoff in time. */
  lemma EachDemands(w: World, st: Store, txn: Txn)
    requires Apply(w, st, txn).Some?
    ensures match txn
            case IssueTxn(_, h) => !h.pending
            case AddTxn(subject, h, now) => h.pending && CurrentFor(w, subject, h.jobId, h, now)
            case GrantTxn(jobId, approver, _, _, _, now) =>
              && jobId in st.pending && var p := st.pending[jobId];
              p.wire.pending && p.wire.userId != approver && CurrentFor(w, p.subject, jobId, p.wire, now)
            case AdmitDirectTxn(subject, h, now) =>
              && !h.pending && CurrentFor(w, subject, h.jobId, h, now) && Octets(h.jobId) <= 128
              && 1 <= now <= 4102444800 && 1 <= h.expiresAt <= 4102444800 && h.jobId !in st.jobs
            case AdmitApprovedTxn(subject, h, _, now) =>
              && h.pending && CurrentFor(w, subject, h.jobId, h, now) && Octets(h.jobId) <= 128
              && 1 <= now <= 4102444800 && 1 <= h.expiresAt <= 4102444800
            case AcceptTxn(subject, h, r, approval, now) =>
              && CurrentFor(w, subject, h.jobId, h, now) && 1 <= now <= 4102444800
              && r.jobId == h.jobId && r.workerAgentId == h.workerAgentId && r.digest == Sha256(h) && r.status != Succeeded([])
              && h.issuedAt <= r.producedAt <= now < h.expiresAt && 0 < r.producedAt
            case _ => true
  {
    hide Admissible, JobIdOk, RecordValid, Waits, Redeems, LivePending, LiveGrant, Accepts, EventOf, CurrentFor, Logged;
    match txn
    case AddTxn(subject, h, now) => AdmissibleMeans(w, subject, h.jobId, h, now);
    case GrantTxn(jobId, _, _, _, _, now) => AdmissibleMeans(w, st.pending[jobId].subject, jobId, st.pending[jobId].wire, now);
    case AdmitDirectTxn(subject, h, now) =>
      AdmissibleMeans(w, subject, h.jobId, h, now);
      JobIdMeans(h.jobId);
    case AdmitApprovedTxn(subject, h, _, now) =>
      AdmissibleMeans(w, subject, h.jobId, h, now);
      JobIdMeans(h.jobId);
    case AcceptTxn(subject, h, r, _, now) =>
      AdmissibleMeans(w, subject, h.jobId, h, now);
      AcceptsMeans(r, h, now);
    case _ =>
  }
}
