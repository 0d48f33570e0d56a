/** The durable stores (geniusnew/database.py, geniusnew/audit_store.py) as one database value,
    and the transactions the service runs on it. Every mutation commits together with exactly
    one audit event; `None` is a refusal that rolls the whole transaction back. */
module Ledger {
  import opened Prelude
  import opened Handoffs
  import opened Results
  import opened AuditChain

  const MAX_PENDING := 1000
  const MAX_JOB_ID_BYTES := 128
  const MAX_APPROVAL_TTL := 600

  // ---------------------------------------------------------------- rows

  datatype JobState = PendingApproval | Reserved | ExecutionCommitted | Completed | Refused

  datatype JobRow = JobRow(subject: Text, digest: Digest, state: JobState, createdAt: int,
                           reservedAt: Option<int>, updatedAt: int, expiresAt: int)

  /** The exact signed wire is kept, as the handoff it decodes to. */
  datatype PendingRow = PendingRow(subject: Text, wire: Handoff, expiresAt: int)

  datatype Scope = Scope(digest: Digest, expiresAt: int, jobId: Text, userId: Text, workerAgentId: Text,
                         tier: Text, policyVersion: Text)

  datatype ApprovalState = Granted | Consumed | Revoked

  /** SHA-256 over an approval record, ideal: the hash is its own preimage. */
  datatype RecordHash = RecordSha(token: nat, scope: Scope, issuedAt: int, expiresAt: int, state: ApprovalState,
                                  changedAt: int, previous: Option<RecordHash>)

  /** `token` stands for the digest of a raw token. */
  datatype ApprovalRow = ApprovalRow(token: nat, scope: Scope, issuedAt: int, expiresAt: int, state: ApprovalState,
                                     changedAt: int, previous: Option<RecordHash>)
  {
    function Hash(): RecordHash { RecordSha(token, scope, issuedAt, expiresAt, state, changedAt, previous) }
  }

  datatype AcceptanceRow = AcceptanceRow(jobId: Text, wire: Handoff, result: Result, acceptedAt: int)

  datatype Action =
    | HandoffIssued | HandoffAdmitted | HandoffRejected | ApprovalGranted | ApprovalRevoked
    | ExecutionDispatched | ResultAccepted | ResultRejected

  /** Only the reasons that reconciliation tells apart have a name. */
  datatype ReasonCode = AwaitsApproval | ApprovalExpired | DispatchRefused | OtherReason(code: nat)

  /** Identifiers are recorded in their audit-safe projection. */
  datatype Event = Event(action: Action, reason: ReasonCode, jobId: Text, subject: Text, policyVersion: Text,
                         digest: Digest, apiSubject: Text, occurredAt: int, approval: Option<RecordHash>,
                         result: Option<Result>)

  datatype Store = Store(jobs: map<Text, JobRow>, pending: map<Text, PendingRow>,
                         approvals: map<RecordHash, ApprovalRow>, tokens: map<nat, RecordHash>,
                         acceptances: map<Digest, AcceptanceRow>, events: seq<Event>)

  const EMPTY_STORE := Store(map[], map[], map[], map[], map[], [])

  /** What stays fixed while the service runs. `safe` is the audit projection of identifiers, of
      which nothing is assumed; `fits` is the size bound on a log that can still be anchored; `issues`
      and `signs` are what the issuer and the worker can put on a wire and read back. */
  datatype World = World(policy: Policy, safe: Text -> Text, scheme: Scheme<Event>, sign: HeadBody -> string,
                         fits: seq<Event> -> bool, issues: Handoff -> bool, signs: Result -> bool)

  ghost predicate WorldValid(w: World) {
    && PolicyValid(w.policy) && HashesAreDigests(w.scheme) && SignsFor(w.scheme, w.sign)
    && forall events :: w.fits(events) ==> |events| <= MAX_COUNT
  }

  lemma TtlPositive(w: World)
    requires WorldValid(w)
    ensures w.policy.ttl >= 1
  {
  }

  // ---------------------------------------------------------------- events

  function EventOf(w: World, h: Handoff, action: Action, reason: ReasonCode, at: int, apiSubject: Text,
                   approval: Option<RecordHash>, result: Option<Result>): Event {
    Event(action, reason, w.safe(h.jobId), w.safe(h.userId), w.safe(h.policyVersion), Sha256(h), apiSubject, at,
          approval, result)
  }

  predicate InTime(at: int) { 1 <= at <= MAX_TIME }

  /** Append to the log, in the same transaction. */
  function Logged(w: World, st: Store, e: Event): Option<Store> {
    if InTime(e.occurredAt) && w.fits(st.events + [e]) then Some(st.(events := st.events + [e])) else None
  }

  predicate AllInTime(events: seq<Event>) {
    forall i :: 0 <= i < |events| ==> InTime(events[i].occurredAt)
  }

  /** The next `n` events, whatever they are, still fit. */
  ghost predicate RoomFor(w: World, st: Store, n: nat) {
    forall more: seq<Event> :: |more| <= n && AllInTime(more) ==> w.fits(st.events + more)
  }

  lemma RoomForOne(w: World, st: Store, n: nat)
    requires RoomFor(w, st, n) && n > 0
    ensures forall e: Event :: InTime(e.occurredAt) ==> w.fits(st.events + [e])
  {
    forall e: Event | InTime(e.occurredAt)
      ensures w.fits(st.events + [e])
    {
      assert AllInTime([e]);
    }
  }

  /** The size of a text in UTF-8. */
  function Octets(t: Text): nat {
    if t == [] then 0
    else (if t[0] < 0x80 then 1 else if t[0] < 0x800 then 2 else if t[0] < 0x1_0000 then 3 else 4) + Octets(t[1..])
  }

  predicate JobIdOk(jobId: Text) { jobId != [] && Octets(jobId) <= MAX_JOB_ID_BYTES }

  function ScopeOf(h: Handoff): Scope {
    Scope(Sha256(h), h.expiresAt, h.jobId, h.userId, h.workerAgentId, h.tier, h.policyVersion)
  }

  /** A wire that revalidates for this subject and job now. */
  predicate Admissible(w: World, subject: Text, jobId: Text, h: Handoff, now: int) {
    Trusted(w.policy, subject, jobId, h) && Current(h, now)
  }

  // ---------------------------------------------------------------- transactions

  /** The handoff a request becomes, if the orchestrator issues one. */
  function IssueFor(w: World, subject: Text, jobId: Text, text: Text, at: int): Option<Handoff> {
    match GrantFor(w.policy.grants, subject)
    case None => None
    case Some(grant) =>
      var h := Issued(w.policy, grant, jobId, text, at);
      if text != [] && JobIdOk(jobId) && InTime(at) && w.issues(h) then Some(h) else None
  }

  /** The result a worker signs for what it was asked at `at`, if it signs one. */
  function SignedFor(w: World, h: Handoff, status: Status, reason: Reason, at: int): Option<Result> {
    var r := Produce(h, status, reason, at);
    if r.Some? && w.signs(r.value) then r else None
  }

  /** A job that needs no approval: only its issuance is recorded. */
  function IssueDirect(w: World, st: Store, subject: Text, h: Handoff): Option<Store> {
    if h.pending then None
    else Logged(w, st, EventOf(w, h, HandoffIssued, OtherReason(0), h.issuedAt, subject, None, None))
  }

  /** A refusal or rejection that changes no row. */
  function Note(w: World, st: Store, subject: Text, h: Handoff, result: bool, code: nat, at: int): Option<Store> {
    Logged(w, st, EventOf(w, h, if result then ResultRejected else HandoffRejected, OtherReason(code), at, subject, None, None))
  }

  function LivePending(st: Store, now: int): set<Text> {
    set id | id in st.pending && st.pending[id].expiresAt > now
  }

  /** `PostgresPendingJobs.add` with its issuance event. */
  function AddPending(w: World, st: Store, subject: Text, h: Handoff, now: int): Option<Store> {
    if !h.pending || !Admissible(w, subject, h.jobId, h, now) then None
    else if |LivePending(st, now)| >= MAX_PENDING then None
    else if h.jobId in st.jobs || h.jobId in st.pending then None
    else
      var row := PendingJobRow(subject, h, now);
      Logged(w, st.(jobs := st.jobs[h.jobId := row],
                    pending := st.pending[h.jobId := PendingRow(subject, h, h.expiresAt)]),
             EventOf(w, h, HandoffIssued, AwaitsApproval, h.issuedAt, subject, None, None))
  }

  /** A pending row is granted against only as its ledger row's own. */
  predicate Waits(st: Store, jobId: Text, subject: Text, h: Handoff) {
    && jobId in st.jobs && jobId in st.pending
    && st.jobs[jobId].state == PendingApproval
    && st.jobs[jobId].subject == st.pending[jobId].subject == subject
    && st.jobs[jobId].digest == Sha256(st.pending[jobId].wire) == Sha256(h)
    && st.jobs[jobId].expiresAt == st.pending[jobId].expiresAt == h.expiresAt
  }

  /** What consuming an approval compares: of the pending row only the wire's digest. */
  predicate Redeems(st: Store, jobId: Text, subject: Text, h: Handoff) {
    && jobId in st.jobs && jobId in st.pending
    && st.jobs[jobId].state == PendingApproval && st.jobs[jobId].subject == subject
    && st.jobs[jobId].digest == Sha256(st.pending[jobId].wire) == Sha256(h)
    && st.jobs[jobId].expiresAt == h.expiresAt
  }

  /** `_approval_record`. */
  predicate RecordValid(hash: RecordHash, r: ApprovalRow) {
    && hash == r.Hash()
    && 1 <= r.issuedAt < r.expiresAt <= r.scope.expiresAt <= MAX_TIME
    && r.issuedAt <= r.changedAt <= MAX_TIME
    && (r.state == Consumed ==> r.changedAt < r.expiresAt)
  }

  /** A grant for this scope that could still be consumed. */
  predicate LiveGrant(st: Store, token: nat, scope: Scope, now: int) {
    && token in st.tokens && st.tokens[token] in st.approvals
    && st.approvals[st.tokens[token]].scope == scope
    && st.approvals[st.tokens[token]].state == Granted
    && st.approvals[st.tokens[token]].expiresAt > now
  }

  function GrantRow(h: Handoff, token: nat, ttl: int, now: int): ApprovalRow {
    ApprovalRow(token, ScopeOf(h), now, Min(now + ttl, h.expiresAt), Granted, now, None)
  }

  /** `PostgresApprovalStore.grant` by a distinct approver, with its event. */
  function GrantApproval(w: World, st: Store, jobId: Text, approverUser: Text, approverSubject: Text, token: nat,
                         ttl: int, now: int): Option<Store> {
    if jobId !in st.pending then None
    else
      var p := st.pending[jobId];
      var h := p.wire;
      var row := GrantRow(h, token, ttl, now);
      if h.userId == approverUser || !h.pending || !Admissible(w, p.subject, jobId, h, now) then None
      else if !(1 <= ttl <= MAX_APPROVAL_TTL) || !RecordValid(row.Hash(), row) then None
      else if !Waits(st, jobId, p.subject, h) then None
      else if token in st.tokens || row.Hash() in st.approvals then None
      else if exists t :: t in st.tokens && LiveGrant(st, t, ScopeOf(h), now) then None
      else Logged(w, st.(approvals := st.approvals[row.Hash() := row], tokens := st.tokens[token := row.Hash()]),
                  EventOf(w, h, ApprovalGranted, OtherReason(0), now, approverSubject, Some(row.Hash()), None))
  }

  function ReservedRow(subject: Text, digest: Digest, reservedAt: int, expiresAt: int): JobRow {
    JobRow(subject, digest, Reserved, reservedAt, Some(reservedAt), reservedAt, expiresAt)
  }

  function PendingJobRow(subject: Text, h: Handoff, now: int): JobRow {
    JobRow(subject, Sha256(h), PendingApproval, h.issuedAt, None, now, h.expiresAt)
  }

  /** Gateway admission and reservation of a job that needs no approval. */
  function AdmitDirect(w: World, st: Store, subject: Text, h: Handoff, now: int): Option<Store> {
    if h.pending || !Admissible(w, subject, h.jobId, h, now) || !JobIdOk(h.jobId) || !InTime(now) then None
    else if !InTime(h.expiresAt) || h.jobId in st.jobs then None
    else
      var row := ReservedRow(subject, Sha256(h), now, h.expiresAt);
      Logged(w, st.(jobs := st.jobs[h.jobId := row]),
             EventOf(w, h, HandoffAdmitted, OtherReason(0), now, subject, None, None))
  }

  function ConsumedRow(r: ApprovalRow, now: int): ApprovalRow {
    r.(state := Consumed, changedAt := now, previous := Some(r.Hash()))
  }

  /** Approval consumption, pointer advance, pending removal and reservation, in one transaction. */
  function AdmitApproved(w: World, st: Store, subject: Text, h: Handoff, token: nat, now: int): Option<Store> {
    if !h.pending || !Admissible(w, subject, h.jobId, h, now) || !JobIdOk(h.jobId) || !InTime(now) then None
    else if token !in st.tokens || st.tokens[token] !in st.approvals then None
    else
      var r := st.approvals[st.tokens[token]];
      var consumed := ConsumedRow(r, now);
      if !RecordValid(st.tokens[token], r) || r.token != token || r.state != Granted || r.scope != ScopeOf(h)
         || now < r.issuedAt || now >= r.expiresAt then None
      else if !Redeems(st, h.jobId, subject, h) || !InTime(h.expiresAt) || consumed.Hash() in st.approvals then None
      else
        var row := st.jobs[h.jobId].(state := Reserved, reservedAt := Some(now), updatedAt := now);
        Logged(w, st.(approvals := st.approvals[consumed.Hash() := consumed],
                      tokens := st.tokens[token := consumed.Hash()],
                      pending := st.pending - {h.jobId},
                      jobs := st.jobs[h.jobId := row]),
               EventOf(w, h, HandoffAdmitted, OtherReason(0), now, subject, Some(consumed.Hash()), None))
  }

  predicate Holds(st: Store, jobId: Text, digest: Digest, state: JobState) {
    jobId in st.jobs && st.jobs[jobId].digest == digest && st.jobs[jobId].state == state
  }

  /** Only the row for this handoff, and only from RESERVED. */
  function CommitExecution(w: World, st: Store, subject: Text, h: Handoff, now: int): Option<Store> {
    if !Holds(st, h.jobId, Sha256(h), Reserved) then None
    else
      var row := st.jobs[h.jobId].(state := ExecutionCommitted, updatedAt := now);
      Logged(w, st.(jobs := st.jobs[h.jobId := row]),
             EventOf(w, h, ExecutionDispatched, OtherReason(0), now, subject, None, None))
  }

  /** `ResultVerifier.accept` and the acceptance ledger, whose triggers complete the bound job. */
  function AcceptResult(w: World, st: Store, subject: Text, h: Handoff, result: Result, approval: Option<RecordHash>,
                        now: int): Option<Store> {
    if !InTime(now) || !Admissible(w, subject, h.jobId, h, now) || approval.Some? != h.pending then None
    else if !Accepts(result, h, now) || Sha256(h) in st.acceptances then None
    else if !Holds(st, h.jobId, Sha256(h), ExecutionCommitted) then None
    else
      var row := st.jobs[h.jobId].(state := Completed, updatedAt := now);
      Logged(w, st.(acceptances := st.acceptances[Sha256(h) := AcceptanceRow(h.jobId, h, result, now)],
                    jobs := st.jobs[h.jobId := row]),
             EventOf(w, h, ResultAccepted, OtherReason(0), now, subject, approval, Some(result)))
  }

  /** `PostgresPendingJobs.refuse`: the terminal refusal of a waiting job. */
  function RefusePending(w: World, st: Store, jobId: Text, subject: Text, expired: bool, now: int): Option<Store> {
    if !InTime(now) || jobId !in st.jobs || jobId !in st.pending then None
    else if st.jobs[jobId].state != PendingApproval || st.jobs[jobId].subject != subject then None
    else if now < st.jobs[jobId].createdAt then None
    else
      var row := st.jobs[jobId].(state := Refused, updatedAt := now);
      Logged(w, st.(jobs := st.jobs[jobId := row], pending := st.pending - {jobId}),
             EventOf(w, st.pending[jobId].wire, HandoffRejected, if expired then ApprovalExpired else DispatchRefused,
                     now, subject, None, None))
  }
}
