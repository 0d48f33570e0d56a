/** The start-up reconciliation: what the service demands of its tables and its log before it
    opens a listener (geniusnew/audit_store.py, geniusnew/database.py). */
module Reconciliation {
  import opened Prelude
  import opened Handoffs
  import opened Results
  import opened Bags
  import opened Ledger

  // ---------------------------------------------------------------- one table at a time

  /** `_check_job_ledger`. */
  predicate JobRowValid(id: Text, r: JobRow) {
    && JobIdOk(id) && r.subject != []
    && 1 <= r.createdAt <= MAX_TIME
    && r.createdAt <= r.updatedAt <= MAX_TIME
    && r.createdAt < r.expiresAt <= MAX_TIME
    && (r.reservedAt.Some? ==> r.createdAt <= r.reservedAt.value <= r.updatedAt)
  }

  predicate JobLedgerValid(jobs: map<Text, JobRow>) {
    forall id :: id in jobs ==> JobRowValid(id, jobs[id])
  }

  /** `_check_acceptance_bindings`: acceptances and completed jobs name each other. */
  predicate AcceptanceBound(jobs: map<Text, JobRow>, d: Digest, a: AcceptanceRow) {
    a.jobId in jobs && jobs[a.jobId].digest == d && jobs[a.jobId].state == Completed
  }

  predicate CompletionBound(acceptances: map<Digest, AcceptanceRow>, id: Text, r: JobRow) {
    r.state == Completed ==> r.digest in acceptances && acceptances[r.digest].jobId == id
  }

  predicate AcceptancesBound(jobs: map<Text, JobRow>, acceptances: map<Digest, AcceptanceRow>) {
    && (forall d :: d in acceptances ==> AcceptanceBound(jobs, d, acceptances[d]))
    && (forall id :: id in jobs ==> CompletionBound(acceptances, id, jobs[id]))
  }

  /** `PostgresAcceptanceLedger.check`, one row: re-accepted at its own time. */
  predicate AcceptanceHistorical(w: World, j: JobRow, d: Digest, a: AcceptanceRow) {
    && InTime(a.acceptedAt)
    && j.reservedAt.Some? && j.reservedAt.value <= a.acceptedAt < j.expiresAt && j.updatedAt == a.acceptedAt
    && Sha256(a.wire) == d
    && Admissible(w, j.subject, a.jobId, a.wire, a.acceptedAt)
    && a.wire.expiresAt == j.expiresAt
    && Accepts(a.result, a.wire, a.acceptedAt)
  }

  predicate AcceptancesHistorical(w: World, st: Store) {
    && AcceptancesBound(st.jobs, st.acceptances)
    && forall d :: d in st.acceptances ==>
         AcceptanceHistorical(w, st.jobs[st.acceptances[d].jobId], d, st.acceptances[d])
  }

  /** `PostgresPendingJobs._waiting`: a pending row is its ledger row's own issuance. */
  predicate PendingBound(w: World, id: Text, p: PendingRow, j: JobRow) {
    && j.state == PendingApproval && p.subject == j.subject && p.expiresAt == j.expiresAt
    && Sha256(p.wire) == j.digest
    && p.wire.pending && Admissible(w, p.subject, id, p.wire, j.createdAt)
    && p.wire.issuedAt == j.createdAt && p.wire.expiresAt == p.expiresAt
  }

  predicate PendingConsistent(w: World, st: Store) {
    && (forall id :: id in st.jobs && st.jobs[id].state == PendingApproval ==> id in st.pending)
    && (forall id :: id in st.pending ==> id in st.jobs && PendingBound(w, id, st.pending[id], st.jobs[id]))
  }

  // ---------------------------------------------------------------- approval histories

  /** The records of one token. */
  function History(approvals: map<RecordHash, ApprovalRow>, token: nat): set<RecordHash> {
    set h | h in approvals && approvals[h].token == token
  }

  predicate GrantedRoot(r: ApprovalRow) {
    r.previous == None && r.state == Granted && r.changedAt == r.issuedAt
  }

  predicate Succeeds(next: ApprovalRow, root: ApprovalRow) {
    && next.previous == Some(root.Hash()) && next.state != Granted
    && next.token == root.token && next.scope == root.scope
    && next.issuedAt == root.issuedAt && next.expiresAt == root.expiresAt
    && root.changedAt <= next.changedAt
  }

  /** One granted root and at most one terminal successor, the pointer naming the tip. */
  predicate HistoryOf(approvals: map<RecordHash, ApprovalRow>, token: nat, tip: RecordHash) {
    && tip in approvals
    && (if approvals[tip].previous == None
        then GrantedRoot(approvals[tip]) && History(approvals, token) == {tip}
        else
          var root := approvals[tip].previous.value;
          && root in approvals && GrantedRoot(approvals[root]) && Succeeds(approvals[tip], approvals[root])
          && History(approvals, token) == {root, tip})
  }

  /** A consumed approval is the one its reserved job was admitted on. */
  predicate ConsumedBound(st: Store, r: ApprovalRow) {
    && r.scope.jobId in st.jobs && r.scope.jobId !in st.pending
    && var j := st.jobs[r.scope.jobId];
    && j.digest == r.scope.digest
    && j.state in {Reserved, ExecutionCommitted, Completed}
    && j.reservedAt == Some(r.changedAt)
    && j.expiresAt == r.scope.expiresAt
  }

  predicate TipConsumed(st: Store, token: nat) {
    token in st.tokens && st.tokens[token] in st.approvals && st.approvals[st.tokens[token]].state == Consumed
  }

  /** No job is paid for twice. */
  predicate ConsumesApart(st: Store, t: nat, u: nat) {
    TipConsumed(st, t) && TipConsumed(st, u) && t != u ==>
      st.approvals[st.tokens[t]].scope.jobId != st.approvals[st.tokens[u]].scope.jobId
  }

  /** `_check_approvals`. */
  predicate ApprovalsConsistent(st: Store) {
    && (forall h :: h in st.approvals ==> RecordValid(h, st.approvals[h]))
    && (forall h :: h in st.approvals ==> st.approvals[h].token in st.tokens)
    && (forall t :: t in st.tokens ==> HistoryOf(st.approvals, t, st.tokens[t]) && st.approvals[st.tokens[t]].token == t)
    && (forall t :: t in st.tokens && TipConsumed(st, t) ==> ConsumedBound(st, st.approvals[st.tokens[t]]))
    && (forall t, u :: t in st.tokens && u in st.tokens ==> ConsumesApart(st, t, u))
  }

  // ---------------------------------------------------------------- tables against the log

  /** What a job row, or the event that must witness it, is counted by. */
  datatype Key = Key(jobId: Text, digest: Digest, at: Option<int>)

  datatype Book = Admissions | Executions | Refusals

  function JobKey(w: World, b: Book, id: Text, r: JobRow): Option<Key> {
    match b
    case Admissions =>
      if r.state in {Reserved, ExecutionCommitted, Completed} then Some(Key(w.safe(id), r.digest, r.reservedAt)) else None
    case Executions =>
      if r.state in {ExecutionCommitted, Completed} then Some(Key(w.safe(id), r.digest, r.reservedAt)) else None
    case Refusals =>
      if r.state == Refused then Some(Key(w.safe(id), r.digest, Some(r.updatedAt))) else None
  }

  function EventKey(b: Book, e: Event): Option<Key> {
    if (match b
        case Admissions => e.action == HandoffAdmitted
        case Executions => e.action == ExecutionDispatched
        case Refusals => e.action == HandoffRejected && e.reason in {ApprovalExpired, DispatchRefused})
    then Some(Key(e.jobId, e.digest, Some(e.occurredAt))) else None
  }

  // The counters take their keys as functions; each is named once.

  function JobKeys(w: World, b: Book): (Text, JobRow) -> Option<Key> { (id, r) => JobKey(w, b, id, r) }

  function EventKeys(b: Book): Event -> Option<Key> { e => EventKey(b, e) }

  ghost predicate BookBalances(w: World, b: Book, jobs: map<Text, JobRow>, events: seq<Event>) {
    Balanced(jobs, JobKeys(w, b), events, EventKeys(b))
  }

  /** The events that issued this handoff. */
  function Issuances(events: seq<Event>, jobId: Text, digest: Digest): seq<Event> {
    if events == [] then []
    else
      var e := events[|events| - 1];
      Issuances(events[..|events| - 1], jobId, digest)
      + (if e.action == HandoffIssued && e.jobId == jobId && e.digest == digest then [e] else [])
  }

  predicate IssuedOnce(w: World, events: seq<Event>, id: Text, r: JobRow) {
    var matching := Issuances(events, w.safe(id), r.digest);
    |matching| == 1 && matching[0].apiSubject == r.subject
  }

  function PendingIssueKey(e: Event): Option<(Text, Digest)> {
    if e.action == HandoffIssued && e.reason == AwaitsApproval then Some((e.jobId, e.digest)) else None
  }

  /** Counted only when the row's own issuance awaits approval. */
  function LedgerIssueKey(w: World, events: seq<Event>, id: Text, r: JobRow): Option<(Text, Digest)> {
    var matching := Issuances(events, w.safe(id), r.digest);
    if matching != [] && matching[0].reason == AwaitsApproval then Some((w.safe(id), r.digest)) else None
  }

  function LedgerIssueKeys(w: World, events: seq<Event>): (Text, JobRow) -> Option<(Text, Digest)> {
    (id, r) => LedgerIssueKey(w, events, id, r)
  }

  /** With the approval receipt, when the admission rests on one. */
  function FullAdmissionKey(e: Event): Option<(Key, Option<RecordHash>)> {
    if e.action == HandoffAdmitted then Some((Key(e.jobId, e.digest, Some(e.occurredAt)), e.approval)) else None
  }

  datatype ApprovalKey = ApprovalKey(action: Action, hash: RecordHash, at: int)

  function ApprovalRowKey(hash: RecordHash, r: ApprovalRow): Option<ApprovalKey> {
    Some(ApprovalKey(match r.state case Granted => ApprovalGranted case Consumed => HandoffAdmitted
                                   case Revoked => ApprovalRevoked, hash, r.changedAt))
  }

  predicate RestsOnApproval(e: Event) {
    e.action in {ApprovalGranted, ApprovalRevoked} || (e.action == HandoffAdmitted && e.approval.Some?)
  }

  function ApprovalEventKey(e: Event): Option<ApprovalKey> {
    if RestsOnApproval(e) && e.approval.Some? then Some(ApprovalKey(e.action, e.approval.value, e.occurredAt)) else None
  }

  /** The receipt an approval event names binds the job it was audited for. */
  predicate ReceiptBinds(w: World, approvals: map<RecordHash, ApprovalRow>, e: Event) {
    RestsOnApproval(e) ==>
      && e.approval.Some? && e.approval.value in approvals
      && var scope := approvals[e.approval.value].scope;
      && e.jobId == w.safe(scope.jobId) && e.digest == scope.digest
      && e.subject == w.safe(scope.userId) && e.policyVersion == w.safe(scope.policyVersion)
  }

  datatype ResultKey = ResultKey(jobId: Text, digest: Digest, result: Option<Result>, at: int)

  function AcceptanceKey(w: World, d: Digest, a: AcceptanceRow): Option<ResultKey> {
    Some(ResultKey(w.safe(a.jobId), d, Some(a.result), a.acceptedAt))
  }

  function AcceptanceKeys(w: World): (Digest, AcceptanceRow) -> Option<ResultKey> { (d, a) => AcceptanceKey(w, d, a) }

  function ResultEventKey(e: Event): Option<ResultKey> {
    if e.action == ResultAccepted then Some(ResultKey(e.jobId, e.digest, e.result, e.occurredAt)) else None
  }

  ghost predicate CountedOnce<K(!new)>(bag: multiset<K>) {
    forall k :: bag[k] <= 1
  }

  ghost predicate IssuancesMatch(w: World, st: Store) {
    && (forall id :: id in st.jobs ==> IssuedOnce(w, st.events, id, st.jobs[id]))
    && Balanced(st.jobs, LedgerIssueKeys(w, st.events), st.events, PendingIssueKey)
  }

  ghost predicate AdmissionsMatch(w: World, st: Store) {
    && CountedOnce(EventBag(st.events, FullAdmissionKey))
    && CountedOnce(RowBag(st.jobs, JobKeys(w, Admissions)))
    && BookBalances(w, Admissions, st.jobs, st.events)
  }

  ghost predicate ApprovalsMatch(w: World, st: Store) {
    && Balanced(st.approvals, ApprovalRowKey, st.events, ApprovalEventKey)
    && forall i :: 0 <= i < |st.events| ==> ReceiptBinds(w, st.approvals, st.events[i])
  }

  ghost predicate ResultsMatch(w: World, st: Store) {
    Balanced(st.acceptances, AcceptanceKeys(w), st.events, ResultEventKey)
  }

  /** `check_core_bindings`: five tables against one event log. */
  ghost predicate CoreBindings(w: World, st: Store) {
    && IssuancesMatch(w, st)
    && AdmissionsMatch(w, st)
    && BookBalances(w, Executions, st.jobs, st.events)
    && BookBalances(w, Refusals, st.jobs, st.events)
    && ApprovalsMatch(w, st)
    && ResultsMatch(w, st)
  }

  /** What a start demands before it commits the head: `open_database`, then the log's bindings. */
  ghost predicate Opens(w: World, st: Store) {
    && JobLedgerValid(st.jobs)
    && ApprovalsConsistent(st)
    && AcceptancesBound(st.jobs, st.acceptances)
    && CoreBindings(w, st)
  }

  /** What it demands after the head was acknowledged: the durable stores, then every acceptance again. */
  predicate Serves(w: World, st: Store) {
    && ApprovalsConsistent(st)
    && PendingConsistent(w, st)
    && JobLedgerValid(st.jobs)
    && AcceptancesHistorical(w, st)
  }

  /** Everything a start demands of the committed store. */
  ghost predicate Reconciles(w: World, st: Store) { Opens(w, st) && Serves(w, st) }
}
