/** What a start has established of the tables and the log when it succeeds, table by table and in their
    own terms: nothing that disagrees with the signed log is ever served (geniusnew/audit_store.py,
    geniusnew/database.py). */
module StartLaws {
  import opened Prelude
  import opened Handoffs
  import opened Results
  import opened AuditChain
  import opened Bags
  import opened Ledger
  import opened Reconciliation
  import opened Reopening
  import opened Service

  // ---------------------------------------------------------------- counting by witness

  /** Whatever a balanced table and log count, they count equally often. */
  lemma EquallyOften<I, R, E, K>(rows: map<I, R>, rowKey: (I, R) -> Option<K>, events: seq<E>, eventKey: E -> Option<K>, k: K)
    requires Balanced(rows, rowKey, events, eventKey)
    ensures |RowsWith(rows, rowKey, k)| == |EventsWith(events, eventKey, k)|
  {
    RowBagCounts(rows, rowKey, k);
    EventBagCounts(events, eventKey, k);
  }

  lemma Single<T>(s: set<T>, x: T)
    requires x in s && forall y :: y in s ==> y == x
    ensures |s| == 1
  {
    assert s == {x};
  }

  lemma SomeWitness<T>(s: set<T>) returns (x: T)
    requires |s| > 0
    ensures x in s
  {
    x :| x in s;
  }

  // ---------------------------------------------------------------- acceptances and results

  predicate RecordsAcceptance(w: World, e: Event, d: Digest, a: AcceptanceRow) {
    && e.action == ResultAccepted && e.jobId == w.safe(a.jobId) && e.digest == d
    && e.result == Some(a.result) && e.occurredAt == a.acceptedAt
  }

  /** Every acceptance row has exactly one event that accepted its result at its time, and every such
      event its row. */
  lemma AcceptancesWitnessed(w: World, st: Store)
    requires CoreBindings(w, st)
    ensures forall d :: d in st.acceptances ==>
              |set i: nat | i < |st.events| && RecordsAcceptance(w, st.events[i], d, st.acceptances[d])| == 1
    ensures forall i :: 0 <= i < |st.events| && st.events[i].action == ResultAccepted ==>
              && st.events[i].digest in st.acceptances
              && RecordsAcceptance(w, st.events[i], st.events[i].digest, st.acceptances[st.events[i].digest])
  {
    hide CoreBindings;
    ResultsBalance(w, st);
    forall d | d in st.acceptances
      ensures |set i: nat | i < |st.events| && RecordsAcceptance(w, st.events[i], d, st.acceptances[d])| == 1
    {
      AcceptanceOnce(w, st, d);
    }
    forall i | 0 <= i < |st.events| && st.events[i].action == ResultAccepted
      ensures st.events[i].digest in st.acceptances
              && RecordsAcceptance(w, st.events[i], st.events[i].digest, st.acceptances[st.events[i].digest])
    {
      AcceptanceKept(w, st, i);
    }
  }

  lemma ResultsBalance(w: World, st: Store)
    requires CoreBindings(w, st)
    ensures Balanced(st.acceptances, AcceptanceKeys(w), st.events, ResultEventKey)
  {
    hide IssuancesMatch, AdmissionsMatch, BookBalances, ApprovalsMatch, Balanced;
  }

  lemma AcceptanceOnce(w: World, st: Store, d: Digest)
    requires Balanced(st.acceptances, AcceptanceKeys(w), st.events, ResultEventKey) && d in st.acceptances
    ensures |set i: nat | i < |st.events| && RecordsAcceptance(w, st.events[i], d, st.acceptances[d])| == 1
  {
    var k := AcceptanceKey(w, d, st.acceptances[d]).value;
    EquallyOften(st.acceptances, AcceptanceKeys(w), st.events, ResultEventKey, k);
    Single(RowsWith(st.acceptances, AcceptanceKeys(w), k), d);
    assert EventsWith(st.events, ResultEventKey, k)
           == set i: nat | i < |st.events| && RecordsAcceptance(w, st.events[i], d, st.acceptances[d]);
  }

  lemma AcceptanceKept(w: World, st: Store, i: nat)
    requires Balanced(st.acceptances, AcceptanceKeys(w), st.events, ResultEventKey)
    requires i < |st.events| && st.events[i].action == ResultAccepted
    ensures st.events[i].digest in st.acceptances
    ensures RecordsAcceptance(w, st.events[i], st.events[i].digest, st.acceptances[st.events[i].digest])
  {
    var k := ResultEventKey(st.events[i]).value;
    EquallyOften(st.acceptances, AcceptanceKeys(w), st.events, ResultEventKey, k);
    assert i in EventsWith(st.events, ResultEventKey, k);
    var d := SomeWitness(RowsWith(st.acceptances, AcceptanceKeys(w), k));
  }

  // ---------------------------------------------------------------- admissions, executions, refusals

  predicate RecordsAdmission(w: World, e: Event, id: Text, r: JobRow) {
    && e.action == HandoffAdmitted && e.jobId == w.safe(id) && e.digest == r.digest && r.reservedAt == Some(e.occurredAt)
    && r.state in {Reserved, ExecutionCommitted, Completed}
  }

  predicate RecordsExecution(w: World, e: Event, id: Text, r: JobRow) {
    && e.action == ExecutionDispatched && e.jobId == w.safe(id) && e.digest == r.digest && r.reservedAt == Some(e.occurredAt)
    && r.state in {ExecutionCommitted, Completed}
  }

  lemma BooksKept(w: World, st: Store)
    requires CoreBindings(w, st)
    ensures AdmissionsMatch(w, st) && BookBalances(w, Executions, st.jobs, st.events) && BookBalances(w, Refusals, st.jobs, st.events)
  {
    hide IssuancesMatch, AdmissionsMatch, BookBalances, ApprovalsMatch, Balanced;
  }

  lemma OneRowPerAdmission(w: World, st: Store, k: Key)
    requires AdmissionsMatch(w, st)
    ensures |RowsWith(st.jobs, JobKeys(w, Admissions), k)| <= 1
    ensures |RowsWith(st.jobs, JobKeys(w, Admissions), k)| == |EventsWith(st.events, EventKeys(Admissions), k)|
    ensures |RowsWith(st.jobs, JobKeys(w, Executions), k)| <= 1
  {
    RowBagCounts(st.jobs, JobKeys(w, Admissions), k);
    EquallyOften(st.jobs, JobKeys(w, Admissions), st.events, EventKeys(Admissions), k);
    assert RowBag(st.jobs, JobKeys(w, Admissions))[k] <= 1;
    SubsetIsFewer(RowsWith(st.jobs, JobKeys(w, Executions), k), RowsWith(st.jobs, JobKeys(w, Admissions), k));
  }

  lemma AdmissionEvents(w: World, st: Store, id: Text)
    requires id in st.jobs && st.jobs[id].state in {Reserved, ExecutionCommitted, Completed}
    ensures var k := JobKey(w, Admissions, id, st.jobs[id]).value;
            EventsWith(st.events, EventKeys(Admissions), k)
            == set i: nat | i < |st.events| && RecordsAdmission(w, st.events[i], id, st.jobs[id])
  {
  }

  lemma AdmittedRows(w: World, st: Store, i: nat)
    requires i < |st.events| && st.events[i].action == HandoffAdmitted
    ensures var k := EventKey(Admissions, st.events[i]).value;
            RowsWith(st.jobs, JobKeys(w, Admissions), k)
            == set id | id in st.jobs && RecordsAdmission(w, st.events[i], id, st.jobs[id])
  {
  }

  /** Every job that was reserved has exactly one admission at the time of its reservation, and every
      admission exactly one such job. */
  lemma AdmissionsWitnessed(w: World, st: Store)
    requires CoreBindings(w, st)
    ensures forall id :: id in st.jobs && st.jobs[id].state in {Reserved, ExecutionCommitted, Completed} ==>
              |set i: nat | i < |st.events| && RecordsAdmission(w, st.events[i], id, st.jobs[id])| == 1
    ensures forall i :: 0 <= i < |st.events| && st.events[i].action == HandoffAdmitted ==>
              |set id | id in st.jobs && RecordsAdmission(w, st.events[i], id, st.jobs[id])| == 1
  {
    hide CoreBindings, AdmissionsMatch, EventsWith, RowsWith, RecordsAdmission;
    BooksKept(w, st);
    forall id | id in st.jobs && st.jobs[id].state in {Reserved, ExecutionCommitted, Completed}
      ensures |set i: nat | i < |st.events| && RecordsAdmission(w, st.events[i], id, st.jobs[id])| == 1
    {
      var k := JobKey(w, Admissions, id, st.jobs[id]).value;
      OneRowPerAdmission(w, st, k);
      HasRow(st.jobs, JobKeys(w, Admissions), k, id);
      AdmissionEvents(w, st, id);
    }
    forall i | 0 <= i < |st.events| && st.events[i].action == HandoffAdmitted
      ensures |set id | id in st.jobs && RecordsAdmission(w, st.events[i], id, st.jobs[id])| == 1
    {
      var k := EventKey(Admissions, st.events[i]).value;
      OneRowPerAdmission(w, st, k);
      HasEvent(st.events, EventKeys(Admissions), k, i);
      AdmittedRows(w, st, i);
    }
  }

  lemma HasRow<I, R, K>(rows: map<I, R>, key: (I, R) -> Option<K>, k: K, i: I)
    requires i in rows && key(i, rows[i]) == Some(k)
    ensures |RowsWith(rows, key, k)| >= 1
  {
    assert i in RowsWith(rows, key, k);
  }

  lemma HasEvent<E, K>(events: seq<E>, key: E -> Option<K>, k: K, i: nat)
    requires i < |events| && key(events[i]) == Some(k)
    ensures |EventsWith(events, key, k)| >= 1
  {
    assert i in EventsWith(events, key, k);
  }

  lemma ExecutionEvents(w: World, st: Store, id: Text)
    requires id in st.jobs && st.jobs[id].state in {ExecutionCommitted, Completed}
    ensures var k := JobKey(w, Executions, id, st.jobs[id]).value;
            EventsWith(st.events, EventKeys(Executions), k)
            == set i: nat | i < |st.events| && RecordsExecution(w, st.events[i], id, st.jobs[id])
  {
  }

  lemma ExecutedRows(w: World, st: Store, i: nat)
    requires i < |st.events| && st.events[i].action == ExecutionDispatched
    ensures var k := EventKey(Executions, st.events[i]).value;
            RowsWith(st.jobs, JobKeys(w, Executions), k)
            == set id | id in st.jobs && RecordsExecution(w, st.events[i], id, st.jobs[id])
  {
  }

  /** Every job whose execution was committed has exactly one dispatch, at the time of its reservation,
      and every dispatch exactly one such job. */
  lemma ExecutionsWitnessed(w: World, st: Store)
    requires CoreBindings(w, st)
    ensures forall id :: id in st.jobs && st.jobs[id].state in {ExecutionCommitted, Completed} ==>
              |set i: nat | i < |st.events| && RecordsExecution(w, st.events[i], id, st.jobs[id])| == 1
    ensures forall i :: 0 <= i < |st.events| && st.events[i].action == ExecutionDispatched ==>
              |set id | id in st.jobs && RecordsExecution(w, st.events[i], id, st.jobs[id])| == 1
  {
    hide CoreBindings, AdmissionsMatch, EventsWith, RowsWith, RecordsExecution, Balanced;
    BooksKept(w, st);
    forall id | id in st.jobs && st.jobs[id].state in {ExecutionCommitted, Completed}
      ensures |set i: nat | i < |st.events| && RecordsExecution(w, st.events[i], id, st.jobs[id])| == 1
    {
      var k := JobKey(w, Executions, id, st.jobs[id]).value;
      OneRowPerAdmission(w, st, k);
      EquallyOften(st.jobs, JobKeys(w, Executions), st.events, EventKeys(Executions), k);
      HasRow(st.jobs, JobKeys(w, Executions), k, id);
      ExecutionEvents(w, st, id);
    }
    forall i | 0 <= i < |st.events| && st.events[i].action == ExecutionDispatched
      ensures |set id | id in st.jobs && RecordsExecution(w, st.events[i], id, st.jobs[id])| == 1
    {
      var k := EventKey(Executions, st.events[i]).value;
      OneRowPerAdmission(w, st, k);
      EquallyOften(st.jobs, JobKeys(w, Executions), st.events, EventKeys(Executions), k);
      HasEvent(st.events, EventKeys(Executions), k, i);
      ExecutedRows(w, st, i);
    }
  }

  lemma RefusedRows(w: World, st: Store, jobId: Text, digest: Digest, at: int)
    ensures RowsWith(st.jobs, JobKeys(w, Refusals), Key(jobId, digest, Some(at)))
            == set id | && id in st.jobs && st.jobs[id].state == Refused && w.safe(id) == jobId
                        && st.jobs[id].digest == digest && st.jobs[id].updatedAt == at
  {
  }

  lemma RefusalEvents(st: Store, jobId: Text, digest: Digest, at: int)
    ensures EventsWith(st.events, EventKeys(Refusals), Key(jobId, digest, Some(at)))
            == set i: nat | && i < |st.events| && st.events[i].action == HandoffRejected
                            && st.events[i].reason in {ApprovalExpired, DispatchRefused} && st.events[i].jobId == jobId
                            && st.events[i].digest == digest && st.events[i].occurredAt == at
  {
  }

  /** Of any job id, digest and time, as many jobs were refused as terminal refusals are in the log. */
  lemma RefusalsWitnessed(w: World, st: Store, jobId: Text, digest: Digest, at: int)
    requires CoreBindings(w, st)
    ensures |set id | && id in st.jobs && st.jobs[id].state == Refused && w.safe(id) == jobId
                      && st.jobs[id].digest == digest && st.jobs[id].updatedAt == at|
            == |set i: nat | && i < |st.events| && st.events[i].action == HandoffRejected
                             && st.events[i].reason in {ApprovalExpired, DispatchRefused} && st.events[i].jobId == jobId
                             && st.events[i].digest == digest && st.events[i].occurredAt == at|
  {
    hide CoreBindings, AdmissionsMatch, EventsWith, RowsWith, Balanced;
    BooksKept(w, st);
    EquallyOften(st.jobs, JobKeys(w, Refusals), st.events, EventKeys(Refusals), Key(jobId, digest, Some(at)));
    RefusedRows(w, st, jobId, digest, at);
    RefusalEvents(st, jobId, digest, at);
  }

  // ---------------------------------------------------------------- issuances

  function IssuanceKey(e: Event): Option<(Text, Digest)> {
    if e.action == HandoffIssued then Some((e.jobId, e.digest)) else None
  }

  /** The issuances found are all there are. */
  lemma {:induction false} IssuancesCounted(events: seq<Event>, jobId: Text, digest: Digest)
    ensures |Issuances(events, jobId, digest)| == EventBag(events, IssuanceKey)[(jobId, digest)]
  {
    hide One;
    if events != [] {
      var n := |events| - 1;
      IssuancesCounted(events[..n], jobId, digest);
      OneCounts(IssuanceKey(events[n]), EventBag(events[..n], IssuanceKey), (jobId, digest));
    }
  }

  lemma IssuancesKept(w: World, st: Store)
    requires CoreBindings(w, st)
    ensures forall id :: id in st.jobs ==> IssuedOnce(w, st.events, id, st.jobs[id])
    ensures Balanced(st.jobs, LedgerIssueKeys(w, st.events), st.events, PendingIssueKey)
  {
    hide AdmissionsMatch, BookBalances, ApprovalsMatch, ResultsMatch, Balanced, IssuedOnce;
  }

  lemma IssuanceEvents(events: seq<Event>, jobId: Text, digest: Digest)
    ensures EventsWith(events, IssuanceKey, (jobId, digest))
            == set i: nat | i < |events| && Matches(events[i], jobId, digest)
  {
  }

  lemma IssuedExactlyOnce(w: World, st: Store, id: Text)
    requires CoreBindings(w, st) && id in st.jobs
    ensures var r := st.jobs[id];
            && |set i: nat | i < |st.events| && Matches(st.events[i], w.safe(id), r.digest)| == 1
            && forall i :: 0 <= i < |st.events| && Matches(st.events[i], w.safe(id), r.digest) ==>
                 st.events[i].apiSubject == r.subject && Issuances(st.events, w.safe(id), r.digest) == [st.events[i]]
  {
    hide CoreBindings, EventsWith, Issuances, EventBag, Balanced;
    var r := st.jobs[id];
    IssuancesKept(w, st);
    assert IssuedOnce(w, st.events, id, r);
    IssuancesCounted(st.events, w.safe(id), r.digest);
    EventBagCounts(st.events, IssuanceKey, (w.safe(id), r.digest));
    IssuanceEvents(st.events, w.safe(id), r.digest);
    forall i | 0 <= i < |st.events| && Matches(st.events[i], w.safe(id), r.digest)
      ensures st.events[i] in Issuances(st.events, w.safe(id), r.digest)
    {
      IssuanceFound(st.events, w.safe(id), r.digest, i);
    }
  }

  lemma AwaitingEvents(events: seq<Event>, jobId: Text, digest: Digest)
    ensures EventsWith(events, PendingIssueKey, (jobId, digest))
            <= set i: nat | i < |events| && Matches(events[i], jobId, digest)
  {
  }

  lemma AwaitingRows(w: World, st: Store, i: nat)
    requires CoreBindings(w, st) && i < |st.events|
    requires st.events[i].action == HandoffIssued && st.events[i].reason == AwaitsApproval
    ensures var e := st.events[i];
            RowsWith(st.jobs, LedgerIssueKeys(w, st.events), (e.jobId, e.digest))
            == set id | id in st.jobs && w.safe(id) == e.jobId && st.jobs[id].digest == e.digest
  {
    hide CoreBindings, Issuances;
    var e := st.events[i];
    forall id | id in st.jobs && w.safe(id) == e.jobId && st.jobs[id].digest == e.digest
      ensures LedgerIssueKey(w, st.events, id, st.jobs[id]) == Some((e.jobId, e.digest))
    {
      IssuedExactlyOnce(w, st, id);
      assert Matches(e, w.safe(id), st.jobs[id].digest);
    }
  }

  lemma AwaitingHasRow(w: World, st: Store, i: nat)
    requires CoreBindings(w, st) && i < |st.events|
    requires st.events[i].action == HandoffIssued && st.events[i].reason == AwaitsApproval
    ensures |set id | id in st.jobs && w.safe(id) == st.events[i].jobId && st.jobs[id].digest == st.events[i].digest| == 1
  {
    hide CoreBindings, EventsWith, RowsWith, Issuances, Balanced;
    var e := st.events[i];
    var k := (e.jobId, e.digest);
    IssuancesKept(w, st);
    AwaitingRows(w, st, i);
    EquallyOften(st.jobs, LedgerIssueKeys(w, st.events), st.events, PendingIssueKey, k);
    HasEvent(st.events, PendingIssueKey, k, i);
    var id := SomeWitness(RowsWith(st.jobs, LedgerIssueKeys(w, st.events), k));
    IssuedExactlyOnce(w, st, id);
    AwaitingEvents(st.events, e.jobId, e.digest);
    SubsetIsFewer(EventsWith(st.events, PendingIssueKey, k),
                  set j: nat | j < |st.events| && Matches(st.events[j], e.jobId, e.digest));
  }

  /** Every job was issued exactly once, to its own subject, and every issuance that awaits approval has
      exactly one job. */
  lemma IssuancesWitnessed(w: World, st: Store)
    requires CoreBindings(w, st)
    ensures forall id :: id in st.jobs ==>
              |set i: nat | i < |st.events| && Matches(st.events[i], w.safe(id), st.jobs[id].digest)| == 1
    ensures forall id, i :: id in st.jobs && 0 <= i < |st.events|
                            && Matches(st.events[i], w.safe(id), st.jobs[id].digest) ==>
              st.events[i].apiSubject == st.jobs[id].subject
    ensures forall i :: 0 <= i < |st.events| && st.events[i].action == HandoffIssued && st.events[i].reason == AwaitsApproval ==>
              |set id | id in st.jobs && w.safe(id) == st.events[i].jobId && st.jobs[id].digest == st.events[i].digest| == 1
  {
    hide CoreBindings, Issuances;
    forall id | id in st.jobs
      ensures |set i: nat | i < |st.events| && Matches(st.events[i], w.safe(id), st.jobs[id].digest)| == 1
      ensures forall i :: 0 <= i < |st.events| && Matches(st.events[i], w.safe(id), st.jobs[id].digest) ==>
                st.events[i].apiSubject == st.jobs[id].subject
    {
      IssuedExactlyOnce(w, st, id);
    }
    forall i | 0 <= i < |st.events| && st.events[i].action == HandoffIssued && st.events[i].reason == AwaitsApproval
      ensures |set id | id in st.jobs && w.safe(id) == st.events[i].jobId && st.jobs[id].digest == st.events[i].digest| == 1
    {
      AwaitingHasRow(w, st, i);
    }
  }

  // ---------------------------------------------------------------- approval records and receipts

  predicate RecordsApproval(e: Event, hash: RecordHash, r: ApprovalRow) {
    && e.approval == Some(hash) && e.occurredAt == r.changedAt
    && e.action == match r.state case Granted => ApprovalGranted case Consumed => HandoffAdmitted case Revoked => ApprovalRevoked
  }

  lemma ReceiptsKept(w: World, st: Store)
    requires CoreBindings(w, st)
    ensures Balanced(st.approvals, ApprovalRowKey, st.events, ApprovalEventKey)
    ensures forall i :: 0 <= i < |st.events| ==> ReceiptBinds(w, st.approvals, st.events[i])
  {
    hide AdmissionsMatch, BookBalances, IssuancesMatch, ResultsMatch, Balanced, ReceiptBinds;
  }

  lemma ApprovalOnce(st: Store, h: RecordHash)
    requires Balanced(st.approvals, ApprovalRowKey, st.events, ApprovalEventKey) && h in st.approvals
    ensures |set i: nat | i < |st.events| && RecordsApproval(st.events[i], h, st.approvals[h])| == 1
  {
    var k := ApprovalRowKey(h, st.approvals[h]).value;
    EquallyOften(st.approvals, ApprovalRowKey, st.events, ApprovalEventKey, k);
    Single(RowsWith(st.approvals, ApprovalRowKey, k), h);
    assert EventsWith(st.events, ApprovalEventKey, k)
           == set i: nat | i < |st.events| && RecordsApproval(st.events[i], h, st.approvals[h]);
  }

  lemma ApprovalKept(st: Store, i: nat)
    requires Balanced(st.approvals, ApprovalRowKey, st.events, ApprovalEventKey)
    requires i < |st.events| && RestsOnApproval(st.events[i]) && st.events[i].approval.Some?
    ensures var h := st.events[i].approval.value;
            h in st.approvals && RecordsApproval(st.events[i], h, st.approvals[h])
  {
    var k := ApprovalEventKey(st.events[i]).value;
    EquallyOften(st.approvals, ApprovalRowKey, st.events, ApprovalEventKey, k);
    HasEvent(st.events, ApprovalEventKey, k, i);
    var h := SomeWitness(RowsWith(st.approvals, ApprovalRowKey, k));
  }

  /** Every approval record has exactly one event that granted, consumed or revoked it at its time, and
      every event that rests on an approval names such a record, which is of the same job, handoff,
      owner and policy. */
  lemma ApprovalsWitnessed(w: World, st: Store)
    requires CoreBindings(w, st)
    ensures forall h :: h in st.approvals ==>
              |set i: nat | i < |st.events| && RecordsApproval(st.events[i], h, st.approvals[h])| == 1
    ensures forall i :: 0 <= i < |st.events|
                        && (st.events[i].action in {ApprovalGranted, ApprovalRevoked}
                            || (st.events[i].action == HandoffAdmitted && st.events[i].approval != None)) ==>
              var e := st.events[i];
              && e.approval.Some? && e.approval.value in st.approvals
              && RecordsApproval(e, e.approval.value, st.approvals[e.approval.value])
              && var scope := st.approvals[e.approval.value].scope;
              && e.jobId == w.safe(scope.jobId) && e.digest == scope.digest
              && e.subject == w.safe(scope.userId) && e.policyVersion == w.safe(scope.policyVersion)
  {
    hide CoreBindings, Balanced, RecordsApproval;
    ReceiptsKept(w, st);
    forall h | h in st.approvals
      ensures |set i: nat | i < |st.events| && RecordsApproval(st.events[i], h, st.approvals[h])| == 1
    {
      ApprovalOnce(st, h);
    }
    forall i | 0 <= i < |st.events| && RestsOnApproval(st.events[i])
      ensures ReceiptBinds(w, st.approvals, st.events[i])
      ensures var h := st.events[i].approval;
              h.Some? && h.value in st.approvals && RecordsApproval(st.events[i], h.value, st.approvals[h.value])
    {
      assert ReceiptBinds(w, st.approvals, st.events[i]);
      ApprovalKept(st, i);
    }
  }

  // ---------------------------------------------------------------- the rows themselves

  /** Every job row is well formed: a bounded id, a subject, and times in order within the audit clock. */
  lemma JobsSound(w: World, st: Store, id: Text)
    requires Opens(w, st) && id in st.jobs
    ensures var r := st.jobs[id];
            && id != [] && Octets(id) <= 128 && r.subject != []
            && 1 <= r.createdAt <= r.updatedAt <= 4102444800 && r.createdAt < r.expiresAt <= 4102444800
            && (r.reservedAt != None ==> r.createdAt <= r.reservedAt.value <= r.updatedAt)
  {
    hide ApprovalsConsistent, AcceptancesBound, CoreBindings;
    assert JobRowValid(id, st.jobs[id]);
  }

  lemma HistoriesKept(w: World, st: Store)
    requires Opens(w, st)
    ensures ApprovalsConsistent(st)
  {
    hide ApprovalsConsistent, AcceptancesBound, CoreBindings, JobLedgerValid;
  }

  /** Every approval record is hashed over its own fields, runs in order within its handoff, and is either
      a granted root or the terminal successor of its root, which its token's pointer then names. */
  lemma RecordsSound(w: World, st: Store, h: RecordHash)
    requires Opens(w, st) && h in st.approvals
    ensures var r := st.approvals[h];
            && h == RecordSha(r.token, r.scope, r.issuedAt, r.expiresAt, r.state, r.changedAt, r.previous)
            && 1 <= r.issuedAt < r.expiresAt <= r.scope.expiresAt <= 4102444800
            && r.issuedAt <= r.changedAt <= 4102444800 && (r.state == Consumed ==> r.changedAt < r.expiresAt)
            && r.token in st.tokens
            && if r.previous == None then r.state == Granted && r.changedAt == r.issuedAt
               else
                 && r.state != Granted && st.tokens[r.token] == h && r.previous.value in st.approvals
                 && var root := st.approvals[r.previous.value];
                 && root.previous == None && root.token == r.token && root.scope == r.scope
                 && root.issuedAt == r.issuedAt && root.expiresAt == r.expiresAt
  {
    hide Opens, ConsumedBound;
    HistoriesKept(w, st);
    var r := st.approvals[h];
    assert RecordValid(h, r) && HistoryOf(st.approvals, r.token, st.tokens[r.token]);
    assert h in History(st.approvals, r.token);
  }

  /** No token has two roots or two successors. */
  lemma HistoriesApart(w: World, st: Store, h: RecordHash, g: RecordHash)
    requires Opens(w, st) && h in st.approvals && g in st.approvals && st.approvals[h].token == st.approvals[g].token
    requires (st.approvals[h].previous == None) == (st.approvals[g].previous == None)
    ensures h == g
  {
    hide Opens, ConsumedBound;
    HistoriesKept(w, st);
    var t := st.approvals[h].token;
    assert HistoryOf(st.approvals, t, st.tokens[t]);
    assert h in History(st.approvals, t) && g in History(st.approvals, t);
  }

  /** A consumed approval is the one its job was reserved on, at that very time, and no other is consumed
      for that job. */
  lemma ConsumptionsSound(w: World, st: Store, h: RecordHash)
    requires Opens(w, st) && h in st.approvals && st.approvals[h].state == Consumed
    ensures var r := st.approvals[h];
            && r.scope.jobId in st.jobs && r.scope.jobId !in st.pending
            && var j := st.jobs[r.scope.jobId];
            && j.digest == r.scope.digest && j.expiresAt == r.scope.expiresAt && j.reservedAt == Some(r.changedAt)
            && j.state in {Reserved, ExecutionCommitted, Completed}
    ensures forall g :: g in st.approvals && st.approvals[g].state == Consumed && g != h ==>
              st.approvals[g].scope.jobId != st.approvals[h].scope.jobId
  {
    hide Opens;
    HistoriesKept(w, st);
    ConsumedIsTip(w, st, h);
    var t := st.approvals[h].token;
    assert ConsumedBound(st, st.approvals[st.tokens[t]]);
    forall g | g in st.approvals && st.approvals[g].state == Consumed
               && st.approvals[g].scope.jobId == st.approvals[h].scope.jobId
      ensures g == h
    {
      ConsumedIsTip(w, st, g);
      assert ConsumesApart(st, t, st.approvals[g].token);
    }
  }

  lemma ConsumedIsTip(w: World, st: Store, h: RecordHash)
    requires Opens(w, st) && h in st.approvals && st.approvals[h].state == Consumed
    ensures st.approvals[h].token in st.tokens && st.tokens[st.approvals[h].token] == h
    ensures TipConsumed(st, st.approvals[h].token)
  {
    hide Opens;
    RecordsSound(w, st, h);
  }

  /** Acceptances and completed jobs name each other, already before the head is committed. */
  lemma CompletionsSound(w: World, st: Store)
    requires Opens(w, st)
    ensures forall d :: d in st.acceptances ==>
              var id := st.acceptances[d].jobId;
              id in st.jobs && st.jobs[id].digest == d && st.jobs[id].state == Completed
    ensures forall id :: id in st.jobs && st.jobs[id].state == Completed ==>
              st.jobs[id].digest in st.acceptances && st.acceptances[st.jobs[id].digest].jobId == id
  {
    hide ApprovalsConsistent, CoreBindings, JobLedgerValid;
    forall d | d in st.acceptances
      ensures AcceptanceBound(st.jobs, d, st.acceptances[d])
    {
    }
    forall id | id in st.jobs
      ensures CompletionBound(st.acceptances, id, st.jobs[id])
    {
    }
  }

  /** Every stored result is taken again at the time it was accepted: its handoff still revalidates there,
      it answers that handoff, and the job was completed then. */
  lemma ResultsSound(w: World, st: Store, d: Digest)
    requires Serves(w, st) && d in st.acceptances
    ensures var a := st.acceptances[d];
            && a.jobId in st.jobs && Sha256(a.wire) == d && 1 <= a.acceptedAt <= 4102444800
            && var j := st.jobs[a.jobId];
            && j.state == Completed && j.digest == d && j.updatedAt == a.acceptedAt && j.expiresAt == a.wire.expiresAt
            && j.reservedAt.Some? && j.reservedAt.value <= a.acceptedAt < j.expiresAt
            && Admissible(w, j.subject, a.jobId, a.wire, a.acceptedAt) && Accepts(a.result, a.wire, a.acceptedAt)
  {
    hide ApprovalsConsistent, PendingConsistent, JobLedgerValid, Admissible, Accepts;
    assert AcceptanceBound(st.jobs, d, st.acceptances[d]);
    assert AcceptanceHistorical(w, st.jobs[st.acceptances[d].jobId], d, st.acceptances[d]);
  }

  /** Exactly the jobs that await approval have a stored wire, which is their own issuance. */
  lemma WaitingSound(w: World, st: Store, id: Text)
    requires Serves(w, st)
    ensures id in st.pending <==> id in st.jobs && st.jobs[id].state == PendingApproval
    ensures id in st.pending ==>
              var p, j := st.pending[id], st.jobs[id];
              && p.subject == j.subject && p.expiresAt == j.expiresAt == p.wire.expiresAt && Sha256(p.wire) == j.digest
              && p.wire.pending && p.wire.issuedAt == j.createdAt && Admissible(w, p.subject, id, p.wire, j.createdAt)
  {
    hide ApprovalsConsistent, AcceptancesHistorical, JobLedgerValid, Admissible;
    if id in st.pending {
      assert PendingBound(w, id, st.pending[id], st.jobs[id]);
    }
  }

  /** An instance comes up only over a store of which all of this holds, with its whole log anchored. */
  lemma StartsOnlySound(w: World, s: Shared, i: nat, start: Ack)
    requires i !in s.instances && i in Launched(w, s, i, start).instances
    ensures Opens(w, s.store) && CoreBindings(w, s.store) && Serves(w, s.store)
    ensures var next := Launched(w, s, i, start);
            && start == Answered && next.store == s.store && next.instances == s.instances[i := false]
            && next.anchor == CommitmentTo(w.scheme, s.store.events)
  {
    hide CoreBindings, Serves, Commit;
  }
}
