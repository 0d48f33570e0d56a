/** Each transaction of the durable service keeps the ledger invariant. */
module LedgerSteps {
  import opened Prelude
  import opened Handoffs
  import opened Results
  import opened Ledger
  import opened Reconciliation
  import opened LedgerInvariant

  /** What every transaction promises besides the invariant. */
  ghost predicate Advances(st: Store, next: Store) {
    JobsEvolve(st.jobs, next.jobs) && st.events <= next.events
  }

  /** A transaction that touches no approval and accepts no result. */
  lemma OtherTablesStay(w: World, st: Store, next: Store, used: set<Text>, used': set<Text>, e: Event)
    requires Inv(w, st, used)
    requires next.events == st.events + [e] && !RestsOnApproval(e) && e.action != ResultAccepted
    requires next.approvals == st.approvals && next.tokens == st.tokens && next.acceptances == st.acceptances
    requires JobsEvolve(st.jobs, next.jobs) && NoNewCompletion(st.jobs, next.jobs)
    requires forall id :: id in next.pending ==> id in st.pending || id !in st.jobs
    requires JobsOk(w, next.jobs) && PendingTied(next.jobs, next.pending)
    requires IssuancesOk(w, next.jobs, next.events, used') && BooksBalance(w, next.jobs, next.events)
    ensures Inv(w, next, used') && Advances(st, next)
  {
    hide ApprovalsConsistent, ApprovalsMatch, AcceptancesHistorical, ResultsMatch, BooksBalance, IssuancesOk;
    hide JobsOk, PendingTied, JobsEvolve, NoNewCompletion;
    ApprovalsUnaffected(st, next);
    ApprovalBookIgnores(w, st, next, e);
    AcceptancesUnaffected(w, st, next);
    ResultBookIgnores(w, st, next, e);
  }

  lemma JobsStay(w: World, st: Store, next: Store)
    requires next.jobs == st.jobs
    ensures JobsEvolve(st.jobs, next.jobs) && NoNewCompletion(st.jobs, next.jobs)
  {
  }

  /** One row inserted or moved on. */
  lemma OneJobMoves(w: World, jobs: map<Text, JobRow>, id: Text, r: JobRow)
    requires JobsOk(w, jobs) && JobOk(w, id, r) && r.state != Completed
    requires id in jobs ==> RowEvolves(jobs[id], r)
    ensures var next := jobs[id := r];
            JobsOk(w, next) && JobsEvolve(jobs, next) && NoNewCompletion(jobs, next)
  {
    hide JobOk;
  }

  lemma RowIsOk(w: World, jobs: map<Text, JobRow>, id: Text)
    requires JobsOk(w, jobs) && id in jobs
    ensures JobOk(w, id, jobs[id]) && jobs[id].digest.handoff.jobId == id
  {
  }

  lemma WireOfRow(jobs: map<Text, JobRow>, pending: map<Text, PendingRow>, id: Text)
    requires PendingTied(jobs, pending) && id in pending
    ensures id in jobs && pending[id].wire == jobs[id].digest.handoff
  {
  }

  lemma IssueDirectKeeps(w: World, st: Store, used: set<Text>, subject: Text, h: Handoff)
    requires Inv(w, st, used) && h.jobId !in used && IssueDirect(w, st, subject, h).Some?
    ensures var next := IssueDirect(w, st, subject, h).value;
            Inv(w, next, used + {h.jobId}) && Advances(st, next) && HasIssuance(next.events, Sha256(h), subject)
  {
    hide ApprovalsConsistent, ApprovalsMatch, AcceptancesHistorical, ResultsMatch, BooksBalance, IssuancesOk;
    hide JobsOk, PendingTied, JobsEvolve, NoNewCompletion;
    var next := IssueDirect(w, st, subject, h).value;
    var e := EventOf(w, h, HandoffIssued, OtherReason(0), h.issuedAt, subject, None, None);
    IssuancesGrow(w, st.jobs, st.jobs, st.events, e, used, h.jobId);
    BooksIgnore(w, st.jobs, st.events, e);
    JobsStay(w, st, next);
    OtherTablesStay(w, st, next, used, used + {h.jobId}, e);
    assert Issues(next.events[|st.events|], Sha256(h), subject);
  }

  lemma NoteKeeps(w: World, st: Store, used: set<Text>, subject: Text, h: Handoff, result: bool, code: nat, at: int)
    requires Inv(w, st, used) && Note(w, st, subject, h, result, code, at).Some?
    ensures var next := Note(w, st, subject, h, result, code, at).value;
            Inv(w, next, used) && Advances(st, next) && next.jobs == st.jobs
  {
    hide ApprovalsConsistent, ApprovalsMatch, AcceptancesHistorical, ResultsMatch, BooksBalance, IssuancesOk;
    hide JobsOk, PendingTied, JobsEvolve, NoNewCompletion;
    var next := Note(w, st, subject, h, result, code, at).value;
    var e := EventOf(w, h, if result then ResultRejected else HandoffRejected, OtherReason(code), at, subject, None, None);
    IssuancesStay(w, st.jobs, st.jobs, st.events, e, used);
    BooksIgnore(w, st.jobs, st.events, e);
    JobsStay(w, st, next);
    OtherTablesStay(w, st, next, used, used, e);
  }

  lemma PendingInserted(jobs: map<Text, JobRow>, pending: map<Text, PendingRow>, id: Text, r: JobRow)
    requires PendingTied(jobs, pending) && id !in jobs && r.state == PendingApproval
    ensures PendingTied(jobs[id := r], pending[id := PendingRow(r.subject, r.digest.handoff, r.expiresAt)])
  {
  }

  lemma PendingLeaves(jobs: map<Text, JobRow>, pending: map<Text, PendingRow>, id: Text, r: JobRow)
    requires PendingTied(jobs, pending) && r.state != PendingApproval
    ensures PendingTied(jobs[id := r], pending - {id})
  {
  }

  lemma AddPendingKeeps(w: World, st: Store, used: set<Text>, subject: Text, h: Handoff, now: int)
    requires Inv(w, st, used) && h.jobId !in used && JobIdOk(h.jobId) && AddPending(w, st, subject, h, now).Some?
    ensures var next := AddPending(w, st, subject, h, now).value;
            Inv(w, next, used + {h.jobId}) && Advances(st, next)
  {
    hide ApprovalsConsistent, ApprovalsMatch, AcceptancesHistorical, ResultsMatch, BooksBalance, IssuancesOk;
    hide JobsOk, PendingTied, JobsEvolve, NoNewCompletion, JobIdOk, Trusted;
    var next := AddPending(w, st, subject, h, now).value;
    var id, row := h.jobId, PendingJobRow(subject, h, now);
    var e := EventOf(w, h, HandoffIssued, AwaitsApproval, h.issuedAt, subject, None, None);
    OneJobMoves(w, st.jobs, id, row);
    PendingInserted(st.jobs, st.pending, id, row);
    IssuancesGrow(w, st.jobs, next.jobs, st.events, e, used, id);
    BooksInsert(w, st.jobs, st.events, id, row, e);
    OtherTablesStay(w, st, next, used, used + {id}, e);
  }

  lemma AdmitDirectKeeps(w: World, st: Store, used: set<Text>, subject: Text, h: Handoff, now: int)
    requires Inv(w, st, used) && HasIssuance(st.events, Sha256(h), subject) && AdmitDirect(w, st, subject, h, now).Some?
    ensures var next := AdmitDirect(w, st, subject, h, now).value;
            Inv(w, next, used) && Advances(st, next)
  {
    hide ApprovalsConsistent, ApprovalsMatch, AcceptancesHistorical, ResultsMatch, BooksBalance, IssuancesOk;
    hide JobsOk, PendingTied, JobsEvolve, NoNewCompletion, JobIdOk, Trusted;
    var next := AdmitDirect(w, st, subject, h, now).value;
    var id, row := h.jobId, ReservedRow(subject, Sha256(h), now, h.expiresAt);
    var e := EventOf(w, h, HandoffAdmitted, OtherReason(0), now, subject, None, None);
    OneJobMoves(w, st.jobs, id, row);
    NeverPending(st, id);
    PendingLeaves(st.jobs, st.pending, id, row);
    IssuancesStay(w, st.jobs, next.jobs, st.events, e, used);
    BooksInsert(w, st.jobs, st.events, id, row, e);
    OtherTablesStay(w, st, next, used, used, e);
  }

  lemma NeverPending(st: Store, id: Text)
    requires PendingTied(st.jobs, st.pending) && (id in st.jobs ==> st.jobs[id].state != PendingApproval)
    ensures st.pending - {id} == st.pending
  {
  }

  lemma CommitExecutionKeeps(w: World, st: Store, used: set<Text>, subject: Text, h: Handoff, now: int)
    requires Inv(w, st, used) && CommitExecution(w, st, subject, h, now).Some?
    requires st.jobs[h.jobId].reservedAt == Some(now)
    ensures var next := CommitExecution(w, st, subject, h, now).value;
            Inv(w, next, used) && Advances(st, next)
  {
    hide ApprovalsConsistent, ApprovalsMatch, AcceptancesHistorical, ResultsMatch, BooksBalance, IssuancesOk;
    hide JobsOk, PendingTied, JobsEvolve, NoNewCompletion, JobIdOk, Trusted;
    RowIsOk(w, st.jobs, h.jobId);
    var next := CommitExecution(w, st, subject, h, now).value;
    var id, row := h.jobId, st.jobs[h.jobId].(state := ExecutionCommitted, updatedAt := now);
    var e := EventOf(w, h, ExecutionDispatched, OtherReason(0), now, subject, None, None);
    OneJobMoves(w, st.jobs, id, row);
    NeverPending(st, id);
    PendingLeaves(st.jobs, st.pending, id, row);
    IssuancesStay(w, st.jobs, next.jobs, st.events, e, used);
    BooksUpdate(w, st.jobs, st.events, id, row, e);
    OtherTablesStay(w, st, next, used, used, e);
  }

  lemma RefusePendingKeeps(w: World, st: Store, used: set<Text>, id: Text, subject: Text, expired: bool, now: int)
    requires Inv(w, st, used) && RefusePending(w, st, id, subject, expired, now).Some?
    ensures var next := RefusePending(w, st, id, subject, expired, now).value;
            Inv(w, next, used) && Advances(st, next)
  {
    hide ApprovalsConsistent, ApprovalsMatch, AcceptancesHistorical, ResultsMatch, BooksBalance, IssuancesOk;
    hide JobsOk, PendingTied, JobsEvolve, NoNewCompletion, JobIdOk, Trusted;
    RowIsOk(w, st.jobs, id);
    WireOfRow(st.jobs, st.pending, id);
    var next := RefusePending(w, st, id, subject, expired, now).value;
    var row := st.jobs[id].(state := Refused, updatedAt := now);
    var e := EventOf(w, st.pending[id].wire, HandoffRejected, if expired then ApprovalExpired else DispatchRefused, now,
                     subject, None, None);
    OneJobMoves(w, st.jobs, id, row);
    PendingLeaves(st.jobs, st.pending, id, row);
    IssuancesStay(w, st.jobs, next.jobs, st.events, e, used);
    BooksUpdate(w, st.jobs, st.events, id, row, e);
    OtherTablesStay(w, st, next, used, used, e);
  }

  // ---------------------------------------------------------------- approvals

  lemma HistoryElsewhere(approvals: map<RecordHash, ApprovalRow>, r: ApprovalRow, t: nat)
    requires r.token != t
    ensures History(approvals[r.Hash() := r], t) == History(approvals, t) - {r.Hash()}
  {
  }

  lemma OtherHistoryStays(approvals: map<RecordHash, ApprovalRow>, r: ApprovalRow, t: nat, tip: RecordHash)
    requires HistoryOf(approvals, t, tip) && r.token != t && r.Hash() !in approvals
    ensures HistoryOf(approvals[r.Hash() := r], t, tip)
  {
    HistoryElsewhere(approvals, r, t);
    assert r.Hash() !in History(approvals, t);
  }

  lemma FirstRecord(approvals: map<RecordHash, ApprovalRow>, r: ApprovalRow)
    requires GrantedRoot(r) && r.Hash() !in approvals
    requires forall h :: h in approvals ==> approvals[h].token != r.token
    ensures HistoryOf(approvals[r.Hash() := r], r.token, r.Hash())
  {
    assert History(approvals[r.Hash() := r], r.token) == {r.Hash()};
  }

  /** A new token starts its own history. */
  lemma GrantKeepsApprovals(st: Store, next: Store, r: ApprovalRow)
    requires ApprovalsConsistent(st) && GrantedRoot(r) && RecordValid(r.Hash(), r)
    requires r.token !in st.tokens && r.Hash() !in st.approvals
    requires next.approvals == st.approvals[r.Hash() := r] && next.tokens == st.tokens[r.token := r.Hash()]
    requires next.jobs == st.jobs && next.pending == st.pending
    ensures ApprovalsConsistent(next)
  {
    hide HistoryOf, RecordValid, ConsumedBound, GrantedRoot;
    FirstRecord(st.approvals, r);
    forall t | t in next.tokens
      ensures HistoryOf(next.approvals, t, next.tokens[t])
    {
      if t != r.token {
        OtherHistoryStays(st.approvals, r, t, st.tokens[t]);
      }
    }
    TipsKnown(st);
    GrantedIsNotConsumed(r);
    forall t | t in next.tokens && TipConsumed(next, t)
      ensures ConsumedBound(next, next.approvals[next.tokens[t]])
    {
      assert TipConsumed(st, t);
      SameJobsSameBound(st, next, st.approvals[st.tokens[t]]);
    }
    forall t, u | t in next.tokens && u in next.tokens
      ensures ConsumesApart(next, t, u)
    {
      if t != r.token && u != r.token {
        assert ConsumesApart(st, t, u);
      }
    }
  }

  lemma GrantedIsNotConsumed(r: ApprovalRow)
    requires GrantedRoot(r)
    ensures r.state != Consumed
  {
  }

  lemma TipsKnown(st: Store)
    requires ApprovalsConsistent(st)
    ensures forall t :: t in st.tokens ==> st.tokens[t] in st.approvals
  {
  }

  lemma SameJobsSameBound(st: Store, next: Store, r: ApprovalRow)
    requires ConsumedBound(st, r) && next.jobs == st.jobs && next.pending == st.pending
    ensures ConsumedBound(next, r)
  {
  }

  lemma GrantApprovalKeeps(w: World, st: Store, used: set<Text>, id: Text, approver: Text, subject: Text, token: nat,
                           ttl: int, now: int)
    requires Inv(w, st, used) && GrantApproval(w, st, id, approver, subject, token, ttl, now).Some?
    ensures var next := GrantApproval(w, st, id, approver, subject, token, ttl, now).value;
            Inv(w, next, used) && Advances(st, next)
  {
    hide ApprovalsConsistent, ApprovalsMatch, AcceptancesHistorical, ResultsMatch, BooksBalance, IssuancesOk;
    hide JobsOk, PendingTied, JobsEvolve, NoNewCompletion, Trusted, RecordValid;
    var next := GrantApproval(w, st, id, approver, subject, token, ttl, now).value;
    var h := st.pending[id].wire;
    var row := GrantRow(h, token, ttl, now);
    var e := EventOf(w, h, ApprovalGranted, OtherReason(0), now, subject, Some(row.Hash()), None);
    RowGranted(h, token, ttl, now);
    GrantKeepsApprovals(st, next, row);
    ApprovalBookGrows(w, st, next, e, row);
    IssuancesStay(w, st.jobs, st.jobs, st.events, e, used);
    BooksIgnore(w, st.jobs, st.events, e);
    JobsStay(w, st, next);
    AcceptancesUnaffected(w, st, next);
    ResultBookIgnores(w, st, next, e);
  }

  lemma RowGranted(h: Handoff, token: nat, ttl: int, now: int)
    ensures GrantedRoot(GrantRow(h, token, ttl, now)) && GrantRow(h, token, ttl, now).token == token
  {
  }

  /** A granted tip is a history of its own, so its first successor closes it. */
  lemma SecondRecord(approvals: map<RecordHash, ApprovalRow>, t: nat, tip: RecordHash, now: int)
    requires HistoryOf(approvals, t, tip) && RecordValid(tip, approvals[tip]) && approvals[tip].state == Granted
    requires approvals[tip].token == t && approvals[tip].changedAt <= now
    requires ConsumedRow(approvals[tip], now).Hash() !in approvals
    ensures var c := ConsumedRow(approvals[tip], now);
            HistoryOf(approvals[c.Hash() := c], t, c.Hash())
  {
    var c := ConsumedRow(approvals[tip], now);
    assert approvals[tip].previous == None;
    assert History(approvals[c.Hash() := c], t) == {tip, c.Hash()};
  }

  lemma ConsumedIsValid(tip: RecordHash, r: ApprovalRow, now: int)
    requires RecordValid(tip, r) && r.issuedAt <= now < r.expiresAt
    ensures RecordValid(ConsumedRow(r, now).Hash(), ConsumedRow(r, now))
  {
  }

  lemma OtherBoundsStay(st: Store, next: Store, r: ApprovalRow, id: Text)
    requires ConsumedBound(st, r) && id in st.jobs && st.jobs[id].state == PendingApproval
    requires id in next.jobs && next.jobs == st.jobs[id := next.jobs[id]] && next.pending == st.pending - {id}
    ensures ConsumedBound(next, r) && r.scope.jobId != id
  {
  }

  lemma ConsumeKeepsApprovals(st: Store, next: Store, id: Text, token: nat, now: int)
    requires ApprovalsConsistent(st) && token in st.tokens
    requires id in st.jobs && st.jobs[id].state == PendingApproval && id in next.jobs
    requires next.jobs == st.jobs[id := next.jobs[id]] && next.pending == st.pending - {id}
    requires var r := st.approvals[st.tokens[token]];
             var c := ConsumedRow(r, now);
             && r.state == Granted && r.scope.jobId == id && r.issuedAt <= now < r.expiresAt && r.changedAt <= now
             && c.Hash() !in st.approvals && ConsumedBound(next, c)
             && next.approvals == st.approvals[c.Hash() := c] && next.tokens == st.tokens[token := c.Hash()]
    ensures ApprovalsConsistent(next)
  {
    hide HistoryOf, RecordValid, ConsumedBound;
    TipsKnown(st);
    var tip := st.tokens[token];
    var r := st.approvals[tip];
    var c := ConsumedRow(r, now);
    ConsumedIsValid(tip, r, now);
    SecondRecord(st.approvals, token, tip, now);
    forall t | t in next.tokens
      ensures HistoryOf(next.approvals, t, next.tokens[t])
    {
      if t != token {
        OtherHistoryStays(st.approvals, c, t, st.tokens[t]);
      }
    }
    forall t | t in next.tokens && t != token && TipConsumed(next, t)
      ensures ConsumedBound(next, next.approvals[next.tokens[t]])
      ensures next.approvals[next.tokens[t]].scope.jobId != id
    {
      assert TipConsumed(st, t);
      OtherBoundsStay(st, next, st.approvals[st.tokens[t]], id);
    }
    forall t, u | t in next.tokens && u in next.tokens
      ensures ConsumesApart(next, t, u)
    {
      if t != token && u != token {
        assert ConsumesApart(st, t, u);
      }
    }
  }

  lemma TipUnchanged(st: Store, token: nat)
    requires ApprovalsConsistent(st) && token in st.tokens && st.approvals[st.tokens[token]].state == Granted
    ensures st.approvals[st.tokens[token]].changedAt == st.approvals[st.tokens[token]].issuedAt
  {
    assert HistoryOf(st.approvals, token, st.tokens[token]);
  }

  /** What consuming an approval writes, spelled out. */
  lemma AdmitApprovedWrites(w: World, st: Store, subject: Text, h: Handoff, token: nat, now: int)
    requires AdmitApproved(w, st, subject, h, token, now).Some?
    ensures token in st.tokens && st.tokens[token] in st.approvals && Redeems(st, h.jobId, subject, h)
    ensures var r := st.approvals[st.tokens[token]];
            var c := ConsumedRow(r, now);
            var row := st.jobs[h.jobId].(state := Reserved, reservedAt := Some(now), updatedAt := now);
            && r.state == Granted && r.scope == ScopeOf(h) && r.issuedAt <= now < r.expiresAt
            && c.Hash() !in st.approvals && InTime(now) && Current(h, now)
            && AdmitApproved(w, st, subject, h, token, now).value ==
               Store(st.jobs[h.jobId := row], st.pending - {h.jobId}, st.approvals[c.Hash() := c],
                     st.tokens[token := c.Hash()], st.acceptances,
                     st.events + [EventOf(w, h, HandoffAdmitted, OtherReason(0), now, subject, Some(c.Hash()), None)])
  {
  }

  lemma NewlyBound(w: World, st: Store, next: Store, h: Handoff, c: ApprovalRow, now: int)
    requires c.scope == ScopeOf(h) && c.changedAt == now && h.jobId in next.jobs && h.jobId !in next.pending
    requires next.jobs[h.jobId].digest == Sha256(h) && next.jobs[h.jobId].expiresAt == h.expiresAt
    requires next.jobs[h.jobId].state == Reserved && next.jobs[h.jobId].reservedAt == Some(now)
    ensures ConsumedBound(next, c)
  {
  }

  lemma AdmitApprovedKeeps(w: World, st: Store, used: set<Text>, subject: Text, h: Handoff, token: nat, now: int)
    requires Inv(w, st, used) && AdmitApproved(w, st, subject, h, token, now).Some?
    ensures var next := AdmitApproved(w, st, subject, h, token, now).value;
            Inv(w, next, used) && Advances(st, next)
  {
    hide ApprovalsConsistent, ApprovalsMatch, AcceptancesHistorical, ResultsMatch, BooksBalance, IssuancesOk;
    hide JobsOk, PendingTied, JobsEvolve, NoNewCompletion, JobIdOk, Trusted, RecordValid, ConsumedBound, AdmitApproved;
    AdmitApprovedWrites(w, st, subject, h, token, now);
    var next := AdmitApproved(w, st, subject, h, token, now).value;
    var c := ConsumedRow(st.approvals[st.tokens[token]], now);
    var id, row := h.jobId, st.jobs[h.jobId].(state := Reserved, reservedAt := Some(now), updatedAt := now);
    var e := EventOf(w, h, HandoffAdmitted, OtherReason(0), now, subject, Some(c.Hash()), None);
    RowIsOk(w, st.jobs, id);
    OneJobMoves(w, st.jobs, id, row);
    PendingLeaves(st.jobs, st.pending, id, row);
    NewlyBound(w, st, next, h, c, now);
    TipUnchanged(st, token);
    ConsumeKeepsApprovals(st, next, id, token, now);
    ApprovalBookGrows(w, st, next, e, c);
    IssuancesStay(w, st.jobs, next.jobs, st.events, e, used);
    BooksUpdate(w, st.jobs, st.events, id, row, e);
    AcceptancesUnaffected(w, st, next);
    ResultBookIgnores(w, st, next, e);
  }

  // ---------------------------------------------------------------- acceptance

  /** The row an acceptance writes always passes the historical re-check. */
  lemma NewAcceptanceHistorical(w: World, st: Store, next: Store, subject: Text, h: Handoff, result: Result, now: int)
    requires AcceptancesHistorical(w, st) && Holds(st, h.jobId, Sha256(h), ExecutionCommitted)
    requires InTime(now) && Admissible(w, subject, h.jobId, h, now) && Accepts(result, h, now)
    requires var j := st.jobs[h.jobId];
             && j.subject == subject && j.expiresAt == h.expiresAt
             && j.reservedAt.Some? && j.reservedAt.value <= now
             && next.jobs == st.jobs[h.jobId := j.(state := Completed, updatedAt := now)]
    requires next.acceptances == st.acceptances[Sha256(h) := AcceptanceRow(h.jobId, h, result, now)]
    requires Sha256(h) !in st.acceptances
    ensures AcceptancesHistorical(w, next)
  {
    hide Trusted, Accepts;
    var id := h.jobId;
    forall d | d in next.acceptances
      ensures AcceptanceBound(next.jobs, d, next.acceptances[d])
      ensures AcceptanceHistorical(w, next.jobs[next.acceptances[d].jobId], d, next.acceptances[d])
    {
      if d != Sha256(h) {
        assert AcceptanceBound(st.jobs, d, st.acceptances[d]);
        assert AcceptanceHistorical(w, st.jobs[st.acceptances[d].jobId], d, st.acceptances[d]);
      }
    }
    forall j | j in next.jobs
      ensures CompletionBound(next.acceptances, j, next.jobs[j])
    {
      if j != id {
        assert CompletionBound(st.acceptances, j, st.jobs[j]);
      }
    }
  }

  lemma OneJobCompletes(w: World, jobs: map<Text, JobRow>, id: Text, r: JobRow)
    requires JobsOk(w, jobs) && JobOk(w, id, r) && id in jobs && RowEvolves(jobs[id], r)
    ensures JobsOk(w, jobs[id := r]) && JobsEvolve(jobs, jobs[id := r])
  {
    hide JobOk;
  }

  lemma AcceptResultKeeps(w: World, st: Store, used: set<Text>, subject: Text, h: Handoff, result: Result,
                          approval: Option<RecordHash>, now: int)
    requires Inv(w, st, used) && AcceptResult(w, st, subject, h, result, approval, now).Some?
    requires st.jobs[h.jobId].subject == subject && st.jobs[h.jobId].reservedAt.Some?
    requires st.jobs[h.jobId].reservedAt.value <= now
    ensures var next := AcceptResult(w, st, subject, h, result, approval, now).value;
            Inv(w, next, used) && Advances(st, next)
  {
    hide ApprovalsConsistent, ApprovalsMatch, AcceptancesHistorical, ResultsMatch, BooksBalance, IssuancesOk;
    hide JobsOk, PendingTied, JobsEvolve, NoNewCompletion, JobIdOk, Trusted, Accepts;
    var next := AcceptResult(w, st, subject, h, result, approval, now).value;
    var id, row := h.jobId, st.jobs[h.jobId].(state := Completed, updatedAt := now);
    var a := AcceptanceRow(id, h, result, now);
    var e := EventOf(w, h, ResultAccepted, OtherReason(0), now, subject, approval, Some(result));
    RowIsOk(w, st.jobs, id);
    OneJobCompletes(w, st.jobs, id, row);
    NeverPending(st, id);
    PendingLeaves(st.jobs, st.pending, id, row);
    IssuancesStay(w, st.jobs, next.jobs, st.events, e, used);
    BooksUpdate(w, st.jobs, st.events, id, row, e);
    ApprovalsUnaffected(st, next);
    ApprovalBookIgnores(w, st, next, e);
    NewAcceptanceHistorical(w, st, next, subject, h, result, now);
    ResultBookGrows(w, st, next, e, Sha256(h), a);
  }
}
