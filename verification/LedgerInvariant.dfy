/** What every transaction keeps: the invariant from which reconciliation follows. */
module LedgerInvariant {
  import opened Prelude
  import opened Handoffs
  import opened Bags
  import opened Ledger
  import opened Reconciliation

  // ---------------------------------------------------------------- the invariant

  predicate JobOk(w: World, id: Text, r: JobRow) {
    var h := r.digest.handoff;
    && JobIdOk(id) && Trusted(w.policy, r.subject, id, h) && r.expiresAt == h.expiresAt
    && InTime(r.createdAt) && h.issuedAt <= r.createdAt < r.expiresAt && r.createdAt <= r.updatedAt
    && (r.updatedAt <= MAX_TIME || r.updatedAt < r.expiresAt)
    && match r.state
       case PendingApproval => h.pending && r.reservedAt == None && r.createdAt == h.issuedAt
       case Refused => r.reservedAt == None
       case _ => r.reservedAt.Some? && r.createdAt <= r.reservedAt.value <= r.updatedAt
                 && r.reservedAt.value < r.expiresAt
  }

  predicate JobsOk(w: World, jobs: map<Text, JobRow>) {
    forall id :: id in jobs ==> JobOk(w, id, jobs[id])
  }

  predicate PendingTied(jobs: map<Text, JobRow>, pending: map<Text, PendingRow>) {
    && (forall id :: id in jobs && jobs[id].state == PendingApproval ==> id in pending)
    && (forall id :: id in pending ==>
          && id in jobs && jobs[id].state == PendingApproval
          && pending[id] == PendingRow(jobs[id].subject, jobs[id].digest.handoff, jobs[id].expiresAt))
  }

  predicate Issues(e: Event, digest: Digest, subject: Text) {
    e.action == HandoffIssued && e.digest == digest && e.apiSubject == subject
  }

  /** Some event issued this handoff to this subject. */
  predicate HasIssuance(events: seq<Event>, digest: Digest, subject: Text) {
    exists i :: 0 <= i < |events| && Issues(events[i], digest, subject)
  }

  function IssuedJob(e: Event): Option<Text> {
    if e.action == HandoffIssued then Some(e.digest.handoff.jobId) else None
  }

  predicate IssueEventOk(w: World, e: Event) {
    e.action == HandoffIssued ==>
      e.jobId == w.safe(e.digest.handoff.jobId) && (e.reason == AwaitsApproval <==> e.digest.handoff.pending)
  }

  /** `used` is every job id the entrance has minted so far. */
  ghost predicate IssuancesOk(w: World, jobs: map<Text, JobRow>, events: seq<Event>, used: set<Text>) {
    && EventBag(events, IssuedJob) == multiset(used)
    && (forall i :: 0 <= i < |events| ==> IssueEventOk(w, events[i]))
    && (forall id :: id in jobs ==> HasIssuance(events, jobs[id].digest, jobs[id].subject))
  }

  function PendingRowKey(w: World, id: Text, r: JobRow): Option<(Text, Digest)> {
    if r.digest.handoff.pending then Some((w.safe(id), r.digest)) else None
  }

  function PendingRowKeys(w: World): (Text, JobRow) -> Option<(Text, Digest)> { (id, r) => PendingRowKey(w, id, r) }

  ghost predicate BooksBalance(w: World, jobs: map<Text, JobRow>, events: seq<Event>) {
    && BookBalances(w, Admissions, jobs, events)
    && BookBalances(w, Executions, jobs, events)
    && BookBalances(w, Refusals, jobs, events)
    && Balanced(jobs, PendingRowKeys(w), events, PendingIssueKey)
  }

  ghost predicate Inv(w: World, st: Store, used: set<Text>) {
    && JobsOk(w, st.jobs)
    && PendingTied(st.jobs, st.pending)
    && IssuancesOk(w, st.jobs, st.events, used)
    && BooksBalance(w, st.jobs, st.events)
    && ApprovalsConsistent(st)
    && ApprovalsMatch(w, st)
    && AcceptancesHistorical(w, st)
    && ResultsMatch(w, st)
  }

  // ---------------------------------------------------------------- how rows move

  /** Identity is immutable, a reservation stays, and a state never goes back. */
  predicate RowEvolves(r: JobRow, next: JobRow) {
    && next.subject == r.subject && next.digest == r.digest
    && next.createdAt == r.createdAt && next.expiresAt == r.expiresAt
    && Rank(r.state) <= Rank(next.state)
    && (r.state != PendingApproval ==> next.reservedAt == r.reservedAt && (r.state == Refused <==> next.state == Refused))
    && (r.state == Completed ==> next == r)
  }

  function Rank(s: JobState): nat {
    match s
    case PendingApproval => 0
    case Reserved => 1
    case ExecutionCommitted => 2
    case Completed => 3
    case Refused => 3
  }

  predicate JobsEvolve(jobs: map<Text, JobRow>, next: map<Text, JobRow>) {
    forall id :: id in jobs ==> id in next && RowEvolves(jobs[id], next[id])
  }

  predicate NoNewCompletion(jobs: map<Text, JobRow>, next: map<Text, JobRow>) {
    forall id :: id in next && next[id].state == Completed ==> id in jobs && jobs[id].state == Completed
  }

  lemma AcceptancesUnaffected(w: World, st: Store, next: Store)
    requires AcceptancesHistorical(w, st) && next.acceptances == st.acceptances
    requires JobsEvolve(st.jobs, next.jobs) && NoNewCompletion(st.jobs, next.jobs)
    ensures AcceptancesHistorical(w, next)
  {
    forall d | d in next.acceptances
      ensures AcceptanceBound(next.jobs, d, next.acceptances[d])
      ensures AcceptanceHistorical(w, next.jobs[next.acceptances[d].jobId], d, next.acceptances[d])
    {
      var id := st.acceptances[d].jobId;
      assert AcceptanceBound(st.jobs, d, st.acceptances[d]);
      assert AcceptanceHistorical(w, st.jobs[id], d, st.acceptances[d]);
      assert next.jobs[id] == st.jobs[id];
    }
    forall id | id in next.jobs
      ensures CompletionBound(next.acceptances, id, next.jobs[id])
    {
      if next.jobs[id].state == Completed {
        assert CompletionBound(st.acceptances, id, st.jobs[id]);
        assert RowEvolves(st.jobs[id], next.jobs[id]);
      }
    }
  }

  /** An acceptance is for the handoff it is filed under. */
  lemma AcceptedForItsHandoff(w: World, st: Store, d: Digest)
    requires AcceptancesHistorical(w, st) && d in st.acceptances
    ensures st.acceptances[d].jobId == d.handoff.jobId
  {
    assert AcceptanceBound(st.jobs, d, st.acceptances[d]);
    assert AcceptanceHistorical(w, st.jobs[st.acceptances[d].jobId], d, st.acceptances[d]);
  }

  /** A job is completed exactly when a result for its handoff was accepted. */
  lemma CompletedOnlyAccepted(w: World, st: Store, h: Handoff)
    requires AcceptancesHistorical(w, st) && h.jobId in st.jobs && st.jobs[h.jobId].digest == Sha256(h)
    ensures st.jobs[h.jobId].state == Completed <==> Sha256(h) in st.acceptances
  {
    hide AcceptanceHistorical;
    assert CompletionBound(st.acceptances, h.jobId, st.jobs[h.jobId]);
    if Sha256(h) in st.acceptances {
      assert AcceptanceBound(st.jobs, Sha256(h), st.acceptances[Sha256(h)]);
      AcceptedForItsHandoff(w, st, Sha256(h));
    }
  }

  lemma BoundStays(st: Store, next: Store, r: ApprovalRow)
    requires ConsumedBound(st, r) && JobsEvolve(st.jobs, next.jobs)
    requires forall id :: id in next.pending ==> id in st.pending || id !in st.jobs
    ensures ConsumedBound(next, r)
  {
    assert RowEvolves(st.jobs[r.scope.jobId], next.jobs[r.scope.jobId]);
  }

  lemma ApprovalsUnaffected(st: Store, next: Store)
    requires ApprovalsConsistent(st) && next.approvals == st.approvals && next.tokens == st.tokens
    requires JobsEvolve(st.jobs, next.jobs)
    requires forall id :: id in next.pending ==> id in st.pending || id !in st.jobs
    ensures ApprovalsConsistent(next)
  {
    hide HistoryOf, RecordValid, ConsumedBound, JobsEvolve;
    forall t | t in next.tokens && TipConsumed(next, t)
      ensures ConsumedBound(next, next.approvals[next.tokens[t]])
    {
      assert TipConsumed(st, t);
      BoundStays(st, next, st.approvals[st.tokens[t]]);
    }
    forall t, u | t in next.tokens && u in next.tokens
      ensures ConsumesApart(next, t, u)
    {
      assert ConsumesApart(st, t, u);
    }
  }

  // ---------------------------------------------------------------- the log grows

  lemma HasIssuanceGrows(events: seq<Event>, e: Event, digest: Digest, subject: Text)
    requires HasIssuance(events, digest, subject)
    ensures HasIssuance(events + [e], digest, subject)
  {
    var i :| 0 <= i < |events| && Issues(events[i], digest, subject);
    assert Issues((events + [e])[i], digest, subject);
  }

  /** An event that issues nothing. */
  lemma IssuancesStay(w: World, jobs: map<Text, JobRow>, next: map<Text, JobRow>, events: seq<Event>, e: Event, used: set<Text>)
    requires IssuancesOk(w, jobs, events, used) && e.action != HandoffIssued
    requires forall id :: id in next ==>
               (id in jobs && next[id].digest == jobs[id].digest && next[id].subject == jobs[id].subject)
               || HasIssuance(events, next[id].digest, next[id].subject)
    ensures IssuancesOk(w, next, events + [e], used)
  {
    EventBagAppend(events, IssuedJob, e);
    forall id | id in next
      ensures HasIssuance(events + [e], next[id].digest, next[id].subject)
    {
      HasIssuanceGrows(events, e, next[id].digest, next[id].subject);
    }
  }

  /** The issuance of a fresh job id. */
  lemma IssuancesGrow(w: World, jobs: map<Text, JobRow>, next: map<Text, JobRow>, events: seq<Event>, e: Event,
                      used: set<Text>, id: Text)
    requires IssuancesOk(w, jobs, events, used) && e.action == HandoffIssued && IssueEventOk(w, e)
    requires e.digest.handoff.jobId == id && id !in used
    requires next == jobs || (id in next && next == jobs[id := next[id]] && Issues(e, next[id].digest, next[id].subject))
    ensures IssuancesOk(w, next, events + [e], used + {id})
  {
    EventBagAppend(events, IssuedJob, e);
    assert multiset(used + {id}) == multiset(used) + multiset{id};
    forall j | j in next
      ensures HasIssuance(events + [e], next[j].digest, next[j].subject)
    {
      if j in jobs && next[j] == jobs[j] {
        HasIssuanceGrows(events, e, next[j].digest, next[j].subject);
      } else {
        assert Issues((events + [e])[|events|], next[j].digest, next[j].subject);
      }
    }
  }

  // ---------------------------------------------------------------- the books

  /** An event no book counts. */
  predicate Uncounted(e: Event) {
    && EventKey(Admissions, e) == None && EventKey(Executions, e) == None && EventKey(Refusals, e) == None
    && PendingIssueKey(e) == None
  }

  lemma BooksIgnore(w: World, jobs: map<Text, JobRow>, events: seq<Event>, e: Event)
    requires BooksBalance(w, jobs, events) && Uncounted(e)
    ensures BooksBalance(w, jobs, events + [e])
  {
    BalancedIgnores(jobs, JobKeys(w, Admissions), events, EventKeys(Admissions), e);
    BalancedIgnores(jobs, JobKeys(w, Executions), events, EventKeys(Executions), e);
    BalancedIgnores(jobs, JobKeys(w, Refusals), events, EventKeys(Refusals), e);
    BalancedIgnores(jobs, PendingRowKeys(w), events, PendingIssueKey, e);
  }

  /** A new row is counted exactly as its event is. */
  predicate EntersTogether(w: World, b: Book, id: Text, r: JobRow, e: Event) {
    JobKey(w, b, id, r) == EventKey(b, e)
  }

  lemma BooksInsert(w: World, jobs: map<Text, JobRow>, events: seq<Event>, id: Text, r: JobRow, e: Event)
    requires BooksBalance(w, jobs, events) && id !in jobs
    requires EntersTogether(w, Admissions, id, r, e) && EntersTogether(w, Executions, id, r, e)
    requires EntersTogether(w, Refusals, id, r, e) && PendingRowKey(w, id, r) == PendingIssueKey(e)
    ensures BooksBalance(w, jobs[id := r], events + [e])
  {
    BalancedInsert(jobs, JobKeys(w, Admissions), events, EventKeys(Admissions), id, r, e);
    BalancedInsert(jobs, JobKeys(w, Executions), events, EventKeys(Executions), id, r, e);
    BalancedInsert(jobs, JobKeys(w, Refusals), events, EventKeys(Refusals), id, r, e);
    BalancedInsert(jobs, PendingRowKeys(w), events, PendingIssueKey, id, r, e);
  }

  /** A changed row starts to be counted exactly when the event is. */
  predicate MovesTogether(w: World, b: Book, id: Text, r: JobRow, next: JobRow, e: Event) {
    || (JobKey(w, b, id, next) == JobKey(w, b, id, r) && EventKey(b, e) == None)
    || (JobKey(w, b, id, r) == None && JobKey(w, b, id, next) == EventKey(b, e))
  }

  lemma BookUpdate(w: World, b: Book, jobs: map<Text, JobRow>, events: seq<Event>, id: Text, r: JobRow, e: Event)
    requires BookBalances(w, b, jobs, events) && id in jobs && MovesTogether(w, b, id, jobs[id], r, e)
    ensures BookBalances(w, b, jobs[id := r], events + [e])
  {
    BalancedUpdate(jobs, JobKeys(w, b), events, EventKeys(b), id, r, e);
  }

  lemma BooksUpdate(w: World, jobs: map<Text, JobRow>, events: seq<Event>, id: Text, r: JobRow, e: Event)
    requires BooksBalance(w, jobs, events) && id in jobs
    requires MovesTogether(w, Admissions, id, jobs[id], r, e) && MovesTogether(w, Executions, id, jobs[id], r, e)
    requires MovesTogether(w, Refusals, id, jobs[id], r, e)
    requires r.digest == jobs[id].digest && PendingIssueKey(e) == None
    ensures BooksBalance(w, jobs[id := r], events + [e])
  {
    BookUpdate(w, Admissions, jobs, events, id, r, e);
    BookUpdate(w, Executions, jobs, events, id, r, e);
    BookUpdate(w, Refusals, jobs, events, id, r, e);
    BalancedUpdate(jobs, PendingRowKeys(w), events, PendingIssueKey, id, r, e);
  }

  // ---------------------------------------------------------------- receipts and results

  lemma ApprovalBookIgnores(w: World, st: Store, next: Store, e: Event)
    requires ApprovalsMatch(w, st) && next.approvals == st.approvals && next.events == st.events + [e]
    requires !RestsOnApproval(e)
    ensures ApprovalsMatch(w, next)
  {
    BalancedIgnores(st.approvals, ApprovalRowKey, st.events, ApprovalEventKey, e);
  }

  lemma ReceiptStays(w: World, approvals: map<RecordHash, ApprovalRow>, r: ApprovalRow, e: Event)
    requires ReceiptBinds(w, approvals, e) && r.Hash() !in approvals
    ensures ReceiptBinds(w, approvals[r.Hash() := r], e)
  {
  }

  lemma ApprovalBookGrows(w: World, st: Store, next: Store, e: Event, r: ApprovalRow)
    requires ApprovalsMatch(w, st) && r.Hash() !in st.approvals
    requires next.approvals == st.approvals[r.Hash() := r] && next.events == st.events + [e]
    requires ApprovalEventKey(e) == ApprovalRowKey(r.Hash(), r) && ReceiptBinds(w, next.approvals, e)
    ensures ApprovalsMatch(w, next)
  {
    hide ReceiptBinds, Balanced;
    BalancedInsert(st.approvals, ApprovalRowKey, st.events, ApprovalEventKey, r.Hash(), r, e);
    forall i | 0 <= i < |next.events|
      ensures ReceiptBinds(w, next.approvals, next.events[i])
    {
      if i < |st.events| {
        ReceiptStays(w, st.approvals, r, st.events[i]);
      }
    }
  }

  lemma ResultBookIgnores(w: World, st: Store, next: Store, e: Event)
    requires ResultsMatch(w, st) && next.acceptances == st.acceptances && next.events == st.events + [e]
    requires e.action != ResultAccepted
    ensures ResultsMatch(w, next)
  {
    BalancedIgnores(st.acceptances, AcceptanceKeys(w), st.events, ResultEventKey, e);
  }

  lemma ResultBookGrows(w: World, st: Store, next: Store, e: Event, d: Digest, a: AcceptanceRow)
    requires ResultsMatch(w, st) && d !in st.acceptances
    requires next.acceptances == st.acceptances[d := a] && next.events == st.events + [e]
    requires ResultEventKey(e) == AcceptanceKey(w, d, a)
    ensures ResultsMatch(w, next)
  {
    BalancedInsert(st.acceptances, AcceptanceKeys(w), st.events, ResultEventKey, d, a, e);
  }
}
