/** From the ledger invariant to the start-up reconciliation: the store can be reopened exactly
    when no job outlives the audit clock. */
module Reopening {
  import opened Prelude
  import opened Handoffs
  import opened Bags
  import opened Ledger
  import opened Reconciliation
  import opened LedgerInvariant

  /** `AddPending` does not bound a handoff's expiry, and the start-up check does. */
  predicate NoLateJob(jobs: map<Text, JobRow>) {
    forall id :: id in jobs ==> jobs[id].expiresAt <= MAX_TIME
  }

  lemma {:induction false} GrantListed(grants: seq<Grant>, subject: Text)
    requires (forall i :: 0 <= i < |grants| ==> GrantValid(grants[i])) && GrantFor(grants, subject).Some?
    ensures subject != []
  {
    if grants[0].subject != subject {
      GrantListed(grants[1..], subject);
    }
  }

  lemma RowReopens(w: World, id: Text, r: JobRow)
    requires PolicyValid(w.policy) && JobOk(w, id, r)
    ensures JobRowValid(id, r) <==> r.expiresAt <= MAX_TIME
  {
    GrantListed(w.policy.grants, r.subject);
  }

  lemma LedgerReopens(w: World, jobs: map<Text, JobRow>)
    requires PolicyValid(w.policy) && JobsOk(w, jobs)
    ensures JobLedgerValid(jobs) <==> NoLateJob(jobs)
  {
    forall id | id in jobs
      ensures JobRowValid(id, jobs[id]) <==> jobs[id].expiresAt <= MAX_TIME
    {
      RowReopens(w, id, jobs[id]);
    }
  }

  lemma PendingReopens(w: World, st: Store)
    requires JobsOk(w, st.jobs) && PendingTied(st.jobs, st.pending)
    ensures PendingConsistent(w, st)
  {
    forall id | id in st.pending
      ensures id in st.jobs && PendingBound(w, id, st.pending[id], st.jobs[id])
    {
      assert JobOk(w, id, st.jobs[id]);
    }
  }

  // ---------------------------------------------------------------- issuances

  predicate Matches(e: Event, jobId: Text, digest: Digest) {
    e.action == HandoffIssued && e.jobId == jobId && e.digest == digest
  }

  lemma {:induction false} IssuancesMatching(events: seq<Event>, jobId: Text, digest: Digest)
    ensures var found := Issuances(events, jobId, digest);
            forall i :: 0 <= i < |found| ==> Matches(found[i], jobId, digest) && found[i] in events
    ensures |Issuances(events, jobId, digest)| <= EventBag(events, IssuedJob)[digest.handoff.jobId]
  {
    if events != [] {
      IssuancesMatching(events[..|events| - 1], jobId, digest);
    }
  }

  lemma {:induction false} IssuanceFound(events: seq<Event>, jobId: Text, digest: Digest, i: nat)
    requires i < |events| && Matches(events[i], jobId, digest)
    ensures events[i] in Issuances(events, jobId, digest)
  {
    if i < |events| - 1 {
      assert events[..|events| - 1][i] == events[i];
      IssuanceFound(events[..|events| - 1], jobId, digest, i);
    }
  }

  lemma RowIssuedOnce(w: World, st: Store, used: set<Text>, id: Text)
    requires IssuancesOk(w, st.jobs, st.events, used) && id in st.jobs && JobOk(w, id, st.jobs[id])
    ensures IssuedOnce(w, st.events, id, st.jobs[id])
    ensures LedgerIssueKey(w, st.events, id, st.jobs[id]) == PendingRowKey(w, id, st.jobs[id])
  {
    hide JobIdOk, Issuances, EventBag;
    var r := st.jobs[id];
    var found := Issuances(st.events, w.safe(id), r.digest);
    assert HasIssuance(st.events, r.digest, r.subject);
    var i :| 0 <= i < |st.events| && Issues(st.events[i], r.digest, r.subject);
    assert IssueEventOk(w, st.events[i]);
    IssuanceFound(st.events, w.safe(id), r.digest, i);
    IssuancesMatching(st.events, w.safe(id), r.digest);
    assert multiset(used)[id] <= 1;
    assert found == [st.events[i]];
  }

  lemma IssuancesReopen(w: World, st: Store, used: set<Text>)
    requires IssuancesOk(w, st.jobs, st.events, used) && JobsOk(w, st.jobs)
    requires Balanced(st.jobs, PendingRowKeys(w), st.events, PendingIssueKey)
    ensures IssuancesMatch(w, st)
  {
    hide IssuedOnce, LedgerIssueKey, JobOk, IssuancesOk;
    forall id | id in st.jobs
      ensures IssuedOnce(w, st.events, id, st.jobs[id])
      ensures LedgerIssueKey(w, st.events, id, st.jobs[id]) == PendingRowKey(w, id, st.jobs[id])
    {
      RowIssuedOnce(w, st, used, id);
    }
    RowBagCongruent(st.jobs, LedgerIssueKeys(w, st.events), PendingRowKeys(w));
  }

  // ---------------------------------------------------------------- admissions

  lemma RowsApart(w: World, jobs: map<Text, JobRow>, i: Text, j: Text, k: Key)
    requires JobsOk(w, jobs) && i in jobs && j in jobs && i != j && JobKey(w, Admissions, i, jobs[i]) == Some(k)
    ensures JobKey(w, Admissions, j, jobs[j]) != Some(k)
  {
    assert JobOk(w, i, jobs[i]) && JobOk(w, j, jobs[j]);
  }

  lemma AdmissionsReopen(w: World, st: Store)
    requires JobsOk(w, st.jobs) && BookBalances(w, Admissions, st.jobs, st.events)
    ensures AdmissionsMatch(w, st)
  {
    hide JobsOk, JobKey, RowBag, EventBag;
    var rows := RowBag(st.jobs, JobKeys(w, Admissions));
    forall k: Key
      ensures rows[k] <= 1
    {
      forall i, j | i in st.jobs && j in st.jobs && i != j && JobKey(w, Admissions, i, st.jobs[i]) == Some(k)
        ensures JobKey(w, Admissions, j, st.jobs[j]) != Some(k)
      {
        RowsApart(w, st.jobs, i, j, k);
      }
      RowBagUnique(st.jobs, JobKeys(w, Admissions), k);
    }
    forall full: (Key, Option<RecordHash>)
      ensures EventBag(st.events, FullAdmissionKey)[full] <= 1
    {
      EventBagCoarser(st.events, FullAdmissionKey, EventKeys(Admissions), full, full.0);
      assert rows[full.0] <= 1;
    }
  }

  lemma HistoricalAreBound(w: World, st: Store)
    requires AcceptancesHistorical(w, st)
    ensures AcceptancesBound(st.jobs, st.acceptances)
  {
  }

  /** The store reconciles exactly when no job expires beyond the audit clock; the checks before the
      head is committed and those after it fail on the same stores. */
  lemma ReconcilesExactly(w: World, st: Store, used: set<Text>)
    requires PolicyValid(w.policy) && Inv(w, st, used)
    ensures Reconciles(w, st) <==> NoLateJob(st.jobs)
    ensures Opens(w, st) <==> NoLateJob(st.jobs)
    ensures Serves(w, st) <==> NoLateJob(st.jobs)
  {
    hide ApprovalsConsistent, ApprovalsMatch, AcceptancesHistorical, AcceptancesBound, ResultsMatch, IssuancesOk, JobsOk;
    hide PendingTied, PendingConsistent, IssuancesMatch, AdmissionsMatch, JobLedgerValid, NoLateJob, BookBalances, Balanced;
    HistoricalAreBound(w, st);
    LedgerReopens(w, st.jobs);
    PendingReopens(w, st);
    IssuancesReopen(w, st, used);
    AdmissionsReopen(w, st);
  }
}
