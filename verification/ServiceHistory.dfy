/** What a run's history must contain for its store to look as it does: who approved what, and how
    full the waiting queue can get. */
module ServiceHistory {
  import opened Prelude
  import opened Handoffs
  import opened Results
  import opened Ledger
  import opened Reconciliation
  import opened LedgerInvariant
  import opened OneLiveGrant
  import opened Service
  import opened ServiceInvariant
  import opened ServiceSafety
  import opened ServiceRuns

  // ---------------------------------------------------------------- the transaction behind a step

  /** The transaction a move attempts, if it attempts one. */
  function TxnOf(w: World, s: System, move: Move): Option<Txn> {
    match move
    case Submit(_, _, subject, jobId, text, at, _) =>
      (match Issue(w, s, subject, jobId, text, at)
       case None => None
       case Some(h) => Some(IssueTxn(subject, h)))
    case SubmitPending(_, subject, jobId, text, at, now, _) =>
      (match Issue(w, s, subject, jobId, text, at)
       case None => None
       case Some(h) => Some(AddTxn(subject, h, now)))
    case Approve(_, jobId, approver, subject, token, ttl, now, _) => Some(GrantTxn(jobId, approver, subject, token, ttl, now))
    case Refuse(_, jobId, subject, expired, now, _) => Some(RefuseTxn(jobId, subject, expired, now))
    case Reject(_, subject, h, ofResult, code, at, _) => Some(NoteTxn(subject, h, ofResult, code, at))
    case Admit(k, now, _) => if k !in s.tasks then None else AdmitTxnOf(s.tasks[k], now)
    case Dispatch(k, _) =>
      if k in s.tasks && s.tasks[k].stage.Admitted?
      then Some(CommitTxn(s.tasks[k].subject, s.tasks[k].h, s.tasks[k].stage.at)) else None
    case Accept(k, now, _) =>
      if k in s.tasks && s.tasks[k].stage.Ran?
      then Some(AcceptTxn(s.tasks[k].subject, s.tasks[k].h, s.tasks[k].stage.result, s.tasks[k].stage.approval, now)) else None
    case _ => None
  }

  function AdmitTxnOf(t: Task, now: int): Option<Txn> {
    match t.stage
    case Routed => Some(AdmitDirectTxn(t.subject, t.h, now))
    case Presenting(token) => Some(AdmitApprovedTxn(t.subject, t.h, token, now))
    case _ => None
  }

  predicate Attempted(w: World, st: Store, txn: Option<Txn>, next: Store) {
    next == st || (txn.Some? && Apply(w, st, txn.value) == Some(next))
  }

  lemma AtomicAttempts(w: World, s: Shared, i: nat, txn: Txn, recover: Ack, ack: Ack)
    requires i in s.instances
    ensures Attempted(w, s.store, Some(txn), Atomic(w, s, i, txn, recover, ack).0.store)
  {
    hide Anchored, Apply;
  }

  /** A step leaves the store as it is or applies its one transaction. */
  lemma StepAttempts(w: World, s: System, move: Move)
    ensures Attempted(w, s.shared.store, TxnOf(w, s, move), Step(w, s, move).shared.store)
  {
    hide Atomic, Apply, Anchored, Issue, SignedFor, Opens, Serves;
    match move {
      case Launch(_, _) =>
      case Crash(_) =>
      case LateDelivery(_) =>
      case Admit(_, _, _) => TaskAttempts(w, s, move);
      case Dispatch(_, _) => TaskAttempts(w, s, move);
      case CallWorker(_, _) =>
      case Accept(_, _, _) => TaskAttempts(w, s, move);
      case _ =>
        if move.i in s.shared.instances {
          RequestAttempts(w, s, move);
        }
    }
  }

  lemma TaskAttempts(w: World, s: System, move: Move)
    requires move.Admit? || move.Dispatch? || move.Accept?
    ensures Attempted(w, s.shared.store, TxnOf(w, s, move), StepTask(w, s, move).shared.store)
  {
    hide Atomic, Apply;
    if Driven(s, move.task) {
      var t := s.tasks[move.task];
      if TxnOf(w, s, move).Some? {
        AtomicAttempts(w, s.shared, t.instance, TxnOf(w, s, move).value, move.acks.recover, move.acks.ack);
      }
    }
  }

  lemma RequestAttempts(w: World, s: System, move: Move)
    requires IsRequest(move)
    requires move.i in s.shared.instances
    ensures Attempted(w, s.shared.store, TxnOf(w, s, move), StepRequest(w, s, move).shared.store)
  {
    hide Atomic, Apply, Issue, Anchored;
    if TxnOf(w, s, move).Some? {
      AtomicAttempts(w, s.shared, move.i, TxnOf(w, s, move).value, move.acks.recover, move.acks.ack);
    }
  }

  // ---------------------------------------------------------------- no approval-bound work unapproved

  /** An approval of this record's job, asked for in the name of someone who does not own it, with this
      token, at the record's own time, and for the time the record then runs: what was asked for,
      but no longer than the handoff. */
  predicate ApprovedBy(move: Move, r: ApprovalRow) {
    && move.Approve? && move.jobId == r.scope.jobId && move.approver != r.scope.userId && move.token == r.token
    && move.now == r.issuedAt && 1 <= move.ttl <= 600
    && r.expiresAt == if move.now + move.ttl < r.scope.expiresAt then move.now + move.ttl else r.scope.expiresAt
  }

  predicate ApprovedIn(moves: seq<Move>, r: ApprovalRow) {
    exists i :: 0 <= i < |moves| && ApprovedBy(moves[i], r)
  }

  /** Every approval record goes back to such an approval. */
  predicate RecordsApproved(st: Store, moves: seq<Move>) {
    forall r :: r in st.approvals ==> ApprovedIn(moves, st.approvals[r])
  }

  predicate HasRecord(st: Store, h: Handoff) {
    exists r :: r in st.approvals && st.approvals[r].scope == ScopeOf(h)
  }

  predicate RowBacked(st: Store, r: JobRow) {
    r.digest.handoff.pending && r.state in {Reserved, ExecutionCommitted, Completed} ==> HasRecord(st, r.digest.handoff)
  }

  /** Every approval-bound job that got further has a record for its handoff. */
  predicate RowsBacked(st: Store) {
    forall id :: id in st.jobs ==> RowBacked(st, st.jobs[id])
  }

  /** Every approval record is for a job of the ledger. */
  predicate ScopesKnown(st: Store) {
    forall r :: r in st.approvals ==> st.approvals[r].scope.jobId in st.jobs
  }

  lemma ApprovedStays(moves: seq<Move>, move: Move, r: ApprovalRow)
    requires ApprovedIn(moves, r) || ApprovedBy(move, r)
    ensures ApprovedIn(moves + [move], r)
  {
    if ApprovedIn(moves, r) {
      var i :| 0 <= i < |moves| && ApprovedBy(moves[i], r);
      assert (moves + [move])[i] == moves[i];
    } else {
      assert (moves + [move])[|moves|] == move;
    }
  }

  /** The same grant, in whatever state. */
  predicate SameGrant(r: ApprovalRow, q: ApprovalRow) {
    r.scope == q.scope && r.token == q.token && r.issuedAt == q.issuedAt && r.expiresAt == q.expiresAt
  }

  /** Where a new approval record comes from. */
  lemma NewRecords(w: World, st: Store, txn: Txn, r: RecordHash)
    requires Apply(w, st, txn).Some? && r in Apply(w, st, txn).value.approvals
    ensures var row := Apply(w, st, txn).value.approvals[r];
            || (exists q :: q in st.approvals && SameGrant(st.approvals[q], row))
            || (&& txn.GrantTxn? && row.scope.jobId == txn.jobId && row.scope.userId != txn.approver && txn.jobId in st.jobs
                && row.token == txn.token && row.issuedAt == txn.now && 1 <= txn.ttl <= 600
                && row.expiresAt == if txn.now + txn.ttl < row.scope.expiresAt then txn.now + txn.ttl else row.scope.expiresAt)
  {
    hide RecordValid, JobIdOk, LivePending, LiveGrant, Accepts, Redeems;
    var next := Apply(w, st, txn).value;
    if txn.AdmitApprovedTxn? {
      var tip := st.tokens[txn.token];
      assert tip in st.approvals && SameGrant(st.approvals[tip], next.approvals[next.tokens[txn.token]]);
      assert r in st.approvals ==> SameGrant(st.approvals[r], st.approvals[r]);
    } else if !txn.GrantTxn? {
      assert next.approvals == st.approvals && SameGrant(st.approvals[r], next.approvals[r]);
    } else {
      assert r in st.approvals ==> SameGrant(st.approvals[r], st.approvals[r]);
    }
  }

  lemma RecordsStayApproved(w: World, st: Store, moves: seq<Move>, move: Move, txn: Txn)
    requires RecordsApproved(st, moves) && Apply(w, st, txn).Some?
    requires txn.GrantTxn? ==> && move.Approve? && move.jobId == txn.jobId && move.approver == txn.approver
                               && move.token == txn.token && move.ttl == txn.ttl && move.now == txn.now
    ensures RecordsApproved(Apply(w, st, txn).value, moves + [move])
  {
    hide Apply;
    var next := Apply(w, st, txn).value;
    forall r | r in next.approvals
      ensures ApprovedIn(moves + [move], next.approvals[r])
    {
      NewRecords(w, st, txn, r);
      if q :| q in st.approvals && SameGrant(st.approvals[q], next.approvals[r]) {
        SameGrantApproved(moves, st.approvals[q], next.approvals[r]);
      }
      ApprovedStays(moves, move, next.approvals[r]);
    }
  }

  lemma SameGrantApproved(moves: seq<Move>, r: ApprovalRow, q: ApprovalRow)
    requires ApprovedIn(moves, r) && SameGrant(r, q)
    ensures ApprovedIn(moves, q)
  {
    var i :| 0 <= i < |moves| && ApprovedBy(moves[i], r);
    assert ApprovedBy(moves[i], q);
  }

  /** No job row is ever removed. */
  lemma RowsOnlyAdded(w: World, st: Store, txn: Txn)
    requires Apply(w, st, txn).Some?
    ensures forall id :: id in st.jobs ==> id in Apply(w, st, txn).value.jobs
  {
    hide Admissible, RecordValid, JobIdOk, LivePending, LiveGrant, Accepts, Waits, Redeems;
  }

  lemma ScopesStayKnown(w: World, st: Store, txn: Txn)
    requires ScopesKnown(st) && Apply(w, st, txn).Some?
    ensures ScopesKnown(Apply(w, st, txn).value)
  {
    hide Apply;
    var next := Apply(w, st, txn).value;
    RowsOnlyAdded(w, st, txn);
    forall r | r in next.approvals
      ensures next.approvals[r].scope.jobId in next.jobs
    {
      NewRecords(w, st, txn, r);
    }
  }

  lemma RecordStays(st: Store, next: Store, h: Handoff)
    requires HasRecord(st, h) && forall r :: r in st.approvals ==> r in next.approvals && next.approvals[r] == st.approvals[r]
    ensures HasRecord(next, h)
  {
    var r :| r in st.approvals && st.approvals[r].scope == ScopeOf(h);
    assert r in next.approvals;
  }

  /** Approval records are only ever added. */
  lemma RecordsOnlyAdded(w: World, st: Store, txn: Txn)
    requires Apply(w, st, txn).Some?
    ensures var next := Apply(w, st, txn).value;
            forall r :: r in st.approvals ==> r in next.approvals && next.approvals[r] == st.approvals[r]
  {
    hide Admissible, RecordValid, JobIdOk, LivePending, LiveGrant, Accepts, Waits, Redeems;
  }

  /** A row that has got further had got there before, or was admitted now: directly, or on a record. */
  lemma NewReservations(w: World, st: Store, txn: Txn, id: Text)
    requires Apply(w, st, txn).Some? && id in Apply(w, st, txn).value.jobs
    ensures var next := Apply(w, st, txn).value;
            var r := next.jobs[id];
            r.digest.handoff.pending && r.state in {Reserved, ExecutionCommitted, Completed} ==>
              || (id in st.jobs && st.jobs[id].digest == r.digest
                  && st.jobs[id].state in {Reserved, ExecutionCommitted, Completed})
              || HasRecord(next, r.digest.handoff)
  {
    hide Admissible, RecordValid, JobIdOk, LivePending, LiveGrant, Accepts;
    var next := Apply(w, st, txn).value;
    if txn.AdmitApprovedTxn? && id == txn.h.jobId {
      assert next.approvals[next.tokens[txn.token]].scope == ScopeOf(txn.h);
      assert HasRecord(next, txn.h);
    }
  }

  lemma RowsStayBacked(w: World, st: Store, txn: Txn)
    requires RowsBacked(st) && Apply(w, st, txn).Some?
    ensures RowsBacked(Apply(w, st, txn).value)
  {
    hide Apply, HasRecord;
    var next := Apply(w, st, txn).value;
    RecordsOnlyAdded(w, st, txn);
    forall id | id in next.jobs
      ensures RowBacked(next, next.jobs[id])
    {
      NewReservations(w, st, txn, id);
      if id in st.jobs && HasRecord(st, next.jobs[id].digest.handoff) {
        RecordStays(st, next, next.jobs[id].digest.handoff);
      }
    }
  }

  lemma {:induction false} ApprovalsHaveHistory(w: World, moves: seq<Move>)
    ensures RecordsApproved(Run(w, moves).shared.store, moves) && RowsBacked(Run(w, moves).shared.store)
    ensures ScopesKnown(Run(w, moves).shared.store)
  {
    hide Step, Apply, ApprovedIn, RowBacked;
    if moves != [] {
      var n := |moves| - 1;
      var s := Run(w, moves[..n]);
      var st, next := s.shared.store, Run(w, moves).shared.store;
      ApprovalsHaveHistory(w, moves[..n]);
      StepAttempts(w, s, moves[n]);
      assert moves == moves[..n] + [moves[n]];
      if next == st {
        forall r | r in st.approvals
          ensures ApprovedIn(moves, st.approvals[r])
        {
          ApprovedStays(moves[..n], moves[n], st.approvals[r]);
        }
      } else {
        var txn := TxnOf(w, s, moves[n]).value;
        RecordsStayApproved(w, st, moves[..n], moves[n], txn);
        RowsStayBacked(w, st, txn);
        ScopesStayKnown(w, st, txn);
      }
    }
  }

  /** Someone other than its owner asks to approve this job. */
  predicate AskedFor(move: Move, jobId: Text, owner: Text) {
    move.Approve? && move.jobId == jobId && move.approver != owner
  }

  lemma ApprovedWasAsked(moves: seq<Move>, r: ApprovalRow)
    requires ApprovedIn(moves, r)
    ensures exists i :: 0 <= i < |moves| && AskedFor(moves[i], r.scope.jobId, r.scope.userId)
  {
    var i :| 0 <= i < |moves| && ApprovedBy(moves[i], r);
    assert AskedFor(moves[i], r.scope.jobId, r.scope.userId);
  }

  /** In every run, the worker is called for an approval-bound job only if someone other than its
      owner had asked to approve that very job. */
  lemma NoWorkUnapproved(w: World, moves: seq<Move>, id: Text)
    requires WorldValid(w) && id in Run(w, moves).calls
    ensures var st := Run(w, moves).shared.store;
            id in st.jobs
            && (st.jobs[id].digest.handoff.pending ==>
                  exists i :: 0 <= i < |moves| && AskedFor(moves[i], id, st.jobs[id].digest.handoff.userId))
  {
    hide SharedInv, GrantsApart, TaskOk, ToldOk, CallsHeldOnce, WorkDone, ApprovedIn, DispatchAnchored, Run;
    RunKeeps(w, moves);
    ApprovalsHaveHistory(w, moves);
    var s := Run(w, moves);
    var st := s.shared.store;
    assert CalledOk(s.shared, id) && RowBacked(st, st.jobs[id]);
    RowNamesItsJob(w, s, id);
    if st.jobs[id].digest.handoff.pending {
      var h := st.jobs[id].digest.handoff;
      var r :| r in st.approvals && st.approvals[r].scope == ScopeOf(h);
      assert ApprovedIn(moves, st.approvals[r]);
      ApprovedWasAsked(moves, st.approvals[r]);
    }
  }

  /** The approval that a token stands for: asked for by someone other than the owner, for this job, and
      `now` lies within the time that was asked for. */
  predicate WithinAsked(move: Move, token: nat, h: Handoff, now: int) {
    && move.Approve? && move.token == token && move.jobId == h.jobId && move.approver != h.userId
    && 1 <= move.ttl <= 600 && move.now <= now < move.now + move.ttl
  }

  /** In every run, a token admits a job only within the time its approval asked for, and before the
      handoff expires. */
  lemma TokenAdmitsInTime(w: World, moves: seq<Move>, subject: Text, h: Handoff, token: nat, now: int)
    requires AdmitApproved(w, Run(w, moves).shared.store, subject, h, token, now).Some?
    ensures now < h.expiresAt && exists i :: 0 <= i < |moves| && WithinAsked(moves[i], token, h, now)
  {
    hide Run, JobIdOk, Redeems, Admissible, Logged;
    ApprovalsHaveHistory(w, moves);
    var st := Run(w, moves).shared.store;
    var r := st.approvals[st.tokens[token]];
    assert ApprovedIn(moves, r);
    var i :| 0 <= i < |moves| && ApprovedBy(moves[i], r);
    assert WithinAsked(moves[i], token, h, now);
  }

  lemma RowNamesItsJob(w: World, s: System, id: Text)
    requires SystemInv(w, s) && id in s.shared.store.jobs
    ensures s.shared.store.jobs[id].digest.handoff.jobId == id
  {
    assert JobOk(w, id, s.shared.store.jobs[id]);
  }

  // ---------------------------------------------------------------- the waiting queue

  /** The clock readings of the queueing requests never fall, and none is after `now`. */
  predicate QueueClockRises(moves: seq<Move>, now: int) {
    && (forall i :: 0 <= i < |moves| && moves[i].SubmitPending? ==> moves[i].now <= now)
    && (forall i, j :: 0 <= i < j < |moves| && moves[i].SubmitPending? && moves[j].SubmitPending? ==>
          moves[i].now <= moves[j].now)
  }

  lemma FewerLive(st: Store, next: Store, now: int, later: int)
    requires now <= later && forall id :: id in next.pending ==> id in st.pending && next.pending[id] == st.pending[id]
    ensures |LivePending(next, later)| <= |LivePending(st, now)|
  {
    SubsetIsFewer(LivePending(next, later), LivePending(st, now));
  }

  /** Only queueing adds a waiting row, and only while there is room for it. */
  lemma QueueGrowsByOne(w: World, st: Store, txn: Txn)
    requires Apply(w, st, txn).Some?
    ensures var next := Apply(w, st, txn).value;
            if txn.AddTxn?
            then |LivePending(st, txn.now)| < MAX_PENDING && |LivePending(next, txn.now)| <= |LivePending(st, txn.now)| + 1
            else forall id :: id in next.pending ==> id in st.pending && next.pending[id] == st.pending[id]
  {
    hide Admissible, RecordValid, JobIdOk, LiveGrant, Accepts, Waits, Redeems;
    if txn.AddTxn? {
      var next := Apply(w, st, txn).value;
      SubsetIsFewer(LivePending(next, txn.now), LivePending(st, txn.now) + {txn.h.jobId});
    }
  }

  /** As long as the clock of the queue does not fall, at most a thousand jobs wait unexpired. */
  lemma {:induction false} QueueStaysBounded(w: World, moves: seq<Move>, now: int)
    requires QueueClockRises(moves, now)
    ensures |LivePending(Run(w, moves).shared.store, now)| <= MAX_PENDING
    decreases |moves|
  {
    hide Step, Apply, LivePending;
    if moves == [] {
      NoneWait(now);
    } else {
      var n := |moves| - 1;
      var s := Run(w, moves[..n]);
      var st, next := s.shared.store, Run(w, moves).shared.store;
      StepAttempts(w, s, moves[n]);
      var at := if moves[n].SubmitPending? then moves[n].now else now;
      QueueStaysBounded(w, moves[..n], at);
      if next == st {
        FewerLive(st, st, at, now);
      } else {
        var txn := TxnOf(w, s, moves[n]).value;
        QueueGrowsByOne(w, st, txn);
        FewerLive(next, next, at, now);
        if !txn.AddTxn? {
          FewerLive(st, next, at, now);
        }
      }
    }
  }

  lemma NoneWait(now: int)
    ensures LivePending(EMPTY_STORE, now) == {}
  {
  }
}
