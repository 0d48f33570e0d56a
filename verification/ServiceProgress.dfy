/** The guarantees are not kept by refusing everything: from any reachable state, a fresh job, with
    or without an approval, runs through to success when nothing is lost. */
module ServiceProgress {
  import opened Prelude
  import opened Handoffs
  import opened Results
  import opened AuditChain
  import opened Bags
  import opened Ledger
  import opened Reconciliation
  import opened LedgerInvariant
  import opened Service
  import opened ServiceInvariant
  import opened ServiceSafety
  import opened ServiceRuns
  import opened ServiceHistory

  /** What a worker that completes the job when it is asked signs for its output. */
  function WorkOf(h: Handoff, output: Text): Result {
    Result(h.jobId, h.workerAgentId, Sha256(h), Succeeded(output), WorkCompleted, h.issuedAt)
  }

  const NOTHING_LOST := Acks(Answered, Answered)

  /** An instance that owes no acknowledgement commits and is acknowledged. */
  lemma Acknowledged(w: World, s: Shared, used: set<Text>, i: nat, txn: Txn)
    requires WorldValid(w) && SharedInv(w, s, used) && i in s.instances && !s.instances[i]
    requires TxnReady(s.store, used, txn) && Apply(w, s.store, txn).Some?
    ensures var st := Apply(w, s.store, txn).value;
            Atomic(w, s, i, txn, Answered, Answered) ==
            (Shared(st, CommitmentTo(w.scheme, st.events), s.instances[i := false]), true)
  {
    hide Inv, WorldValid, Apply, CommitmentTo, Anchored, TxnReady;
    var st := Apply(w, s.store, txn).value;
    ApplyAppendsOne(w, s.store, txn);
    CommitmentOfPrefix(w, s, st);
    AnchoredTakes(w, s.anchor, st.events, Answered);
  }

  /** Every row's id was issued. */
  lemma RowsWereIssued(w: World, st: Store, used: set<Text>, id: Text)
    requires JobsOk(w, st.jobs) && IssuancesOk(w, st.jobs, st.events, used) && id in st.jobs
    ensures id in used
  {
    assert JobOk(w, id, st.jobs[id]);
    var i :| 0 <= i < |st.events| && Issues(st.events[i], st.jobs[id].digest, st.jobs[id].subject);
    assert IssuedJob(st.events[i]) == Some(id);
    EventBagMember(st.events, IssuedJob, id);
    assert id in multiset(used);
  }

  /** One event more leaves room for one less. */
  lemma RoomShrinks(w: World, st: Store, txn: Txn, n: nat)
    requires Apply(w, st, txn).Some? && n > 0 && RoomFor(w, st, n)
    ensures RoomFor(w, Apply(w, st, txn).value, n - 1)
  {
    hide Apply, InTime;
    ApplyLogs(w, st, txn);
    var next := Apply(w, st, txn).value.events;
    var e := next[|st.events|];
    forall more: seq<Event> | |more| <= n - 1 && AllInTime(more)
      ensures w.fits(next + more)
    {
      assert AllInTime([e] + more);
      assert next + more == st.events + ([e] + more);
    }
  }

  lemma SomeRoom(w: World, st: Store, n: nat)
    requires RoomFor(w, st, n) && n > 0
    ensures RoomFor(w, st, 1)
  {
  }

  // Each transaction of a direct job goes through.

  lemma IssueGoes(w: World, st: Store, subject: Text, h: Handoff)
    requires !h.pending && InTime(h.issuedAt) && RoomFor(w, st, 1)
    ensures Apply(w, st, IssueTxn(subject, h)).Some? && Apply(w, st, IssueTxn(subject, h)).value.jobs == st.jobs
  {
    hide RoomFor;
    RoomForOne(w, st, 1);
  }

  lemma AdmitGoes(w: World, st: Store, subject: Text, h: Handoff)
    requires !h.pending && Trusted(w.policy, subject, h.jobId, h) && JobIdOk(h.jobId) && h.jobId !in st.jobs
    requires InTime(h.issuedAt) && h.issuedAt < h.expiresAt <= MAX_TIME && RoomFor(w, st, 1)
    ensures Apply(w, st, AdmitDirectTxn(subject, h, h.issuedAt)).Some?
    ensures Holds(Apply(w, st, AdmitDirectTxn(subject, h, h.issuedAt)).value, h.jobId, Sha256(h), Reserved)
  {
    hide JobIdOk, Trusted, RoomFor;
    RoomForOne(w, st, 1);
  }

  lemma CommitGoes(w: World, st: Store, subject: Text, h: Handoff)
    requires InTime(h.issuedAt) && RoomFor(w, st, 1) && Holds(st, h.jobId, Sha256(h), Reserved)
    ensures Apply(w, st, CommitTxn(subject, h, h.issuedAt)).Some?
    ensures Holds(Apply(w, st, CommitTxn(subject, h, h.issuedAt)).value, h.jobId, Sha256(h), ExecutionCommitted)
  {
    hide RoomFor;
    RoomForOne(w, st, 1);
  }

  lemma AcceptGoes(w: World, st: Store, subject: Text, h: Handoff, r: Result, approval: Option<RecordHash>)
    requires Receipted(h, approval) && Trusted(w.policy, subject, h.jobId, h) && InTime(h.issuedAt)
    requires h.issuedAt < h.expiresAt && Accepts(r, h, h.issuedAt) && Sha256(h) !in st.acceptances && RoomFor(w, st, 1)
    requires Holds(st, h.jobId, Sha256(h), ExecutionCommitted)
    ensures Apply(w, st, AcceptTxn(subject, h, r, approval, h.issuedAt)).Some?
  {
    hide Trusted, Accepts, RoomFor;
    RoomForOne(w, st, 1);
  }

  // And so does each of one that awaits approval.

  /** The row of a waiting job. */
  predicate Queued(st: Store, subject: Text, h: Handoff) {
    h.jobId in st.pending && st.pending[h.jobId] == PendingRow(subject, h, h.expiresAt) && Waits(st, h.jobId, subject, h)
  }

  /** A token and a scope of which the approvals know nothing yet. */
  predicate Unapproved(st: Store, jobId: Text, token: nat) {
    && token !in st.tokens
    && (forall r :: r in st.approvals ==> st.approvals[r].scope.jobId != jobId)
    && (forall r :: r in st.approvals ==> r.token != token)
  }

  lemma AddGoes(w: World, st: Store, subject: Text, h: Handoff, token: nat)
    requires h.pending && Trusted(w.policy, subject, h.jobId, h) && h.jobId !in st.jobs && h.jobId !in st.pending
    requires InTime(h.issuedAt) && h.issuedAt < h.expiresAt && |LivePending(st, h.issuedAt)| < MAX_PENDING && RoomFor(w, st, 1)
    ensures Apply(w, st, AddTxn(subject, h, h.issuedAt)).Some?
    ensures var next := Apply(w, st, AddTxn(subject, h, h.issuedAt)).value;
            Queued(next, subject, h) && (Unapproved(st, h.jobId, token) ==> Unapproved(next, h.jobId, token))
  {
    hide Trusted, LivePending, RoomFor;
    RoomForOne(w, st, 1);
  }

  lemma FreshIsUnapproved(st: Store, jobId: Text, token: nat)
    requires ApprovalsConsistent(st) && ScopesKnown(st) && jobId !in st.jobs && token !in st.tokens
    ensures Unapproved(st, jobId, token)
  {
    hide HistoryOf, ConsumedBound;
    forall r | r in st.approvals
      ensures r.token != token
    {
      assert RecordValid(r, st.approvals[r]);
    }
  }

  /** The live approval of a waiting job, not yet consumed. */
  predicate Approved(st: Store, h: Handoff, token: nat, ttl: int) {
    var row := GrantRow(h, token, ttl, h.issuedAt);
    && token in st.tokens && st.tokens[token] == row.Hash()
    && row.Hash() in st.approvals && st.approvals[row.Hash()] == row
    && ConsumedRow(row, h.issuedAt).Hash() !in st.approvals
  }

  lemma GrantRowValid(h: Handoff, token: nat, ttl: int)
    requires InTime(h.issuedAt) && h.issuedAt < h.expiresAt <= MAX_TIME && 1 <= ttl
    ensures RecordValid(GrantRow(h, token, ttl, h.issuedAt).Hash(), GrantRow(h, token, ttl, h.issuedAt))
    ensures h.issuedAt < GrantRow(h, token, ttl, h.issuedAt).expiresAt
  {
  }

  lemma GrantGoes(w: World, st: Store, subject: Text, h: Handoff, approver: Text, actor: Text, token: nat, ttl: int)
    requires Queued(st, subject, h) && Unapproved(st, h.jobId, token) && h.pending && Trusted(w.policy, subject, h.jobId, h)
    requires InTime(h.issuedAt) && h.issuedAt < h.expiresAt <= MAX_TIME && RoomFor(w, st, 1)
    requires approver != h.userId && 1 <= ttl <= MAX_APPROVAL_TTL
    ensures var txn := GrantTxn(h.jobId, approver, actor, token, ttl, h.issuedAt);
            && Apply(w, st, txn).Some?
            && Queued(Apply(w, st, txn).value, subject, h) && Approved(Apply(w, st, txn).value, h, token, ttl)
  {
    hide Trusted, RecordValid, RoomFor;
    RoomForOne(w, st, 1);
    GrantRowValid(h, token, ttl);
    var row := GrantRow(h, token, ttl, h.issuedAt);
    assert row.Hash().token == token && ConsumedRow(row, h.issuedAt).Hash().token == token;
    assert ConsumedRow(row, h.issuedAt).Hash().state != row.Hash().state;
  }

  lemma AdmitApprovedGoes(w: World, st: Store, subject: Text, h: Handoff, token: nat, ttl: int)
    requires Queued(st, subject, h) && Approved(st, h, token, ttl) && h.pending && Trusted(w.policy, subject, h.jobId, h)
    requires JobIdOk(h.jobId) && InTime(h.issuedAt) && h.issuedAt < h.expiresAt <= MAX_TIME && RoomFor(w, st, 1) && 1 <= ttl
    ensures var txn := AdmitApprovedTxn(subject, h, token, h.issuedAt);
            && Apply(w, st, txn).Some?
            && Holds(Apply(w, st, txn).value, h.jobId, Sha256(h), Reserved) && token in Apply(w, st, txn).value.tokens
  {
    hide Trusted, JobIdOk, RecordValid, RoomFor;
    RoomForOne(w, st, 1);
    GrantRowValid(h, token, ttl);
  }

  // ---------------------------------------------------------------- one job, step by step

  /** An instance that owes nothing, with room for what follows, in a reachable state. */
  ghost predicate Ready(w: World, s: System, i: nat, room: nat) {
    SystemInv(w, s) && i in s.shared.instances && !s.shared.instances[i] && RoomFor(w, s.shared.store, room)
  }

  /** A handoff just issued, whose lifetime ends before the audit clock does. */
  predicate Fresh(w: World, subject: Text, h: Handoff) {
    && Trusted(w.policy, subject, h.jobId, h) && JobIdOk(h.jobId)
    && InTime(h.issuedAt) && h.issuedAt < h.expiresAt <= MAX_TIME
  }

  /** The stage a job's thread is at, with everything the next step needs. */
  ghost predicate Underway(w: World, s: System, i: nat, k: nat, subject: Text, h: Handoff, stage: Stage, room: nat) {
    Ready(w, s, i, room) && k in s.tasks && s.tasks[k] == Task(i, subject, h, stage) && Fresh(w, subject, h)
  }

  lemma SharedPart(w: World, s: System)
    requires SystemInv(w, s)
    ensures SharedInv(w, s.shared, s.used)
    ensures JobsOk(w, s.shared.store.jobs) && IssuancesOk(w, s.shared.store.jobs, s.shared.store.events, s.used)
    ensures PendingTied(s.shared.store.jobs, s.shared.store.pending) && ApprovalsConsistent(s.shared.store)
  {
  }

  /** A job id that was never issued is in no table. */
  lemma UnissuedIsNew(w: World, s: System, jobId: Text)
    requires SystemInv(w, s) && jobId !in s.used
    ensures jobId !in s.shared.store.jobs && jobId !in s.shared.store.pending
  {
    hide SystemInv, SharedInv, ApprovalsConsistent, JobsOk, IssuancesOk;
    SharedPart(w, s);
    if jobId in s.shared.store.jobs {
      RowsWereIssued(w, s.shared.store, s.used, jobId);
    }
  }

  /** What a committed and acknowledged transaction leaves for the next step. */
  lemma Commits(w: World, s: System, i: nat, txn: Txn, move: Move, room: nat)
    requires WorldValid(w) && Ready(w, s, i, room) && room > 0
    requires TxnReady(s.shared.store, s.used, txn) && Apply(w, s.shared.store, txn).Some?
    requires Step(w, s, move).shared == Atomic(w, s.shared, i, txn, Answered, Answered).0
    ensures Ready(w, Step(w, s, move), i, room - 1)
    ensures Step(w, s, move).shared.store == Apply(w, s.shared.store, txn).value
    ensures Atomic(w, s.shared, i, txn, Answered, Answered).1
  {
    hide SystemInv, SharedInv, Atomic, WorldValid, Apply, RoomFor, CommitmentTo, TxnReady, Step;
    SharedPart(w, s);
    Acknowledged(w, s.shared, s.used, i, txn);
    RoomShrinks(w, s.shared.store, txn, room);
    StepKeeps(w, s, move);
  }

  lemma FreshlyIssued(w: World, subject: Text, jobId: Text, text: Text, at: int)
    requires WorldValid(w) && GrantFor(w.policy.grants, subject).Some?
    requires text != [] && JobIdOk(jobId) && InTime(at) && at + w.policy.ttl <= MAX_TIME
    requires w.issues(Issued(w.policy, GrantFor(w.policy.grants, subject).value, jobId, text, at))
    ensures var h := Issued(w.policy, GrantFor(w.policy.grants, subject).value, jobId, text, at);
            Fresh(w, subject, h) && IssueFor(w, subject, jobId, text, at) == Some(h)
  {
    hide WorldValid;
    TtlPositive(w);
  }

  lemma Submits(w: World, s: System, i: nat, k: nat, subject: Text, jobId: Text, text: Text, at: int)
    requires WorldValid(w) && Ready(w, s, i, 4) && k !in s.tasks && jobId !in s.used
    requires GrantFor(w.policy.grants, subject).Some? && !GrantFor(w.policy.grants, subject).value.requiresApproval
    requires text != [] && JobIdOk(jobId) && InTime(at) && at + w.policy.ttl <= MAX_TIME
    requires w.issues(Issued(w.policy, GrantFor(w.policy.grants, subject).value, jobId, text, at))
    ensures var h := Issued(w.policy, GrantFor(w.policy.grants, subject).value, jobId, text, at);
            var next := Step(w, s, Submit(i, k, subject, jobId, text, at, NOTHING_LOST));
            Underway(w, next, i, k, subject, h, Routed, 3) && jobId !in next.shared.store.jobs
  {
    hide SystemInv, JobIdOk, Atomic, WorldValid, Apply, RoomFor, IssueFor, Trusted;
    var h := Issued(w.policy, GrantFor(w.policy.grants, subject).value, jobId, text, at);
    var txn := IssueTxn(subject, h);
    UnissuedIsNew(w, s, jobId);
    FreshlyIssued(w, subject, jobId, text, at);
    SomeRoom(w, s.shared.store, 4);
    IssueGoes(w, s.shared.store, subject, h);
    Commits(w, s, i, txn, Submit(i, k, subject, jobId, text, at, NOTHING_LOST), 4);
  }

  lemma Admits(w: World, s: System, i: nat, k: nat, subject: Text, h: Handoff)
    requires WorldValid(w) && Underway(w, s, i, k, subject, h, Routed, 3) && !h.pending && h.jobId !in s.shared.store.jobs
    ensures Underway(w, Step(w, s, Admit(k, h.issuedAt, NOTHING_LOST)), i, k, subject, h, Admitted(h.issuedAt, None), 2)
    ensures Holds(Step(w, s, Admit(k, h.issuedAt, NOTHING_LOST)).shared.store, h.jobId, Sha256(h), Reserved)
  {
    hide SystemInv, JobIdOk, Atomic, WorldValid, HasIssuance, Trusted, Apply, RoomFor, Holds;
    TaskKnown(w, s, k);
    SomeRoom(w, s.shared.store, 3);
    AdmitGoes(w, s.shared.store, subject, h);
    Commits(w, s, i, AdmitDirectTxn(subject, h, h.issuedAt), Admit(k, h.issuedAt, NOTHING_LOST), 3);
  }

  lemma Queues(w: World, s: System, i: nat, subject: Text, jobId: Text, text: Text, at: int, token: nat)
    requires WorldValid(w) && Ready(w, s, i, 5) && jobId !in s.used && ScopesKnown(s.shared.store)
    requires GrantFor(w.policy.grants, subject).Some? && GrantFor(w.policy.grants, subject).value.requiresApproval
    requires text != [] && JobIdOk(jobId) && InTime(at) && at + w.policy.ttl <= MAX_TIME
    requires w.issues(Issued(w.policy, GrantFor(w.policy.grants, subject).value, jobId, text, at))
    requires |LivePending(s.shared.store, at)| < MAX_PENDING && token !in s.shared.store.tokens
    ensures var h := Issued(w.policy, GrantFor(w.policy.grants, subject).value, jobId, text, at);
            var next := Step(w, s, SubmitPending(i, subject, jobId, text, at, at, NOTHING_LOST));
            && Ready(w, next, i, 4) && Fresh(w, subject, h) && next.tasks == s.tasks
            && Queued(next.shared.store, subject, h) && Unapproved(next.shared.store, jobId, token)
  {
    hide SystemInv, JobIdOk, Atomic, WorldValid, Apply, RoomFor, IssueFor, Trusted, LivePending, Queued, Unapproved;
    hide SharedInv, ApprovalsConsistent, JobsOk, IssuancesOk, PendingTied, ScopesKnown;
    var h := Issued(w.policy, GrantFor(w.policy.grants, subject).value, jobId, text, at);
    SharedPart(w, s);
    UnissuedIsNew(w, s, jobId);
    FreshIsUnapproved(s.shared.store, jobId, token);
    FreshlyIssued(w, subject, jobId, text, at);
    SomeRoom(w, s.shared.store, 5);
    AddGoes(w, s.shared.store, subject, h, token);
    Commits(w, s, i, AddTxn(subject, h, at), SubmitPending(i, subject, jobId, text, at, at, NOTHING_LOST), 5);
  }

  lemma Approves(w: World, s: System, i: nat, subject: Text, h: Handoff, approver: Text, actor: Text, token: nat, ttl: int)
    requires WorldValid(w) && Ready(w, s, i, 4) && Fresh(w, subject, h) && h.pending
    requires Queued(s.shared.store, subject, h) && Unapproved(s.shared.store, h.jobId, token)
    requires approver != h.userId && 1 <= ttl <= MAX_APPROVAL_TTL
    ensures var next := Step(w, s, Approve(i, h.jobId, approver, actor, token, ttl, h.issuedAt, NOTHING_LOST));
            && Ready(w, next, i, 3) && next.tasks == s.tasks
            && Queued(next.shared.store, subject, h) && Approved(next.shared.store, h, token, ttl)
  {
    hide SystemInv, JobIdOk, Atomic, WorldValid, Apply, RoomFor, Trusted, Queued, Approved, Unapproved;
    SomeRoom(w, s.shared.store, 4);
    GrantGoes(w, s.shared.store, subject, h, approver, actor, token, ttl);
    Commits(w, s, i, GrantTxn(h.jobId, approver, actor, token, ttl, h.issuedAt),
            Approve(i, h.jobId, approver, actor, token, ttl, h.issuedAt, NOTHING_LOST), 4);
  }

  lemma Presents(w: World, s: System, i: nat, k: nat, subject: Text, h: Handoff, token: nat)
    requires WorldValid(w) && Ready(w, s, i, 3) && Fresh(w, subject, h) && Queued(s.shared.store, subject, h)
    requires k !in s.tasks
    ensures var next := Step(w, s, Present(i, k, subject, h.jobId, token));
            Underway(w, next, i, k, subject, h, Presenting(token), 3) && next.shared == s.shared
  {
    hide SystemInv, WorldValid, RoomFor, Fresh;
    StepKeeps(w, s, Present(i, k, subject, h.jobId, token));
  }

  lemma AdmitsApproved(w: World, s: System, i: nat, k: nat, subject: Text, h: Handoff, token: nat, ttl: int)
    requires WorldValid(w) && Underway(w, s, i, k, subject, h, Presenting(token), 3) && h.pending && 1 <= ttl
    requires Queued(s.shared.store, subject, h) && Approved(s.shared.store, h, token, ttl)
    ensures var next := Step(w, s, Admit(k, h.issuedAt, NOTHING_LOST));
            && token in next.shared.store.tokens
            && Underway(w, next, i, k, subject, h, Admitted(h.issuedAt, Some(next.shared.store.tokens[token])), 2)
            && Holds(next.shared.store, h.jobId, Sha256(h), Reserved)
  {
    hide SystemInv, JobIdOk, Atomic, WorldValid, Trusted, Apply, RoomFor, Holds, Queued, Approved;
    SomeRoom(w, s.shared.store, 3);
    AdmitApprovedGoes(w, s.shared.store, subject, h, token, ttl);
    Commits(w, s, i, AdmitApprovedTxn(subject, h, token, h.issuedAt), Admit(k, h.issuedAt, NOTHING_LOST), 3);
  }

  lemma Dispatches(w: World, s: System, i: nat, k: nat, subject: Text, h: Handoff, approval: Option<RecordHash>)
    requires WorldValid(w) && Underway(w, s, i, k, subject, h, Admitted(h.issuedAt, approval), 2)
    requires Holds(s.shared.store, h.jobId, Sha256(h), Reserved)
    ensures Underway(w, Step(w, s, Dispatch(k, NOTHING_LOST)), i, k, subject, h, Dispatched(h.issuedAt, approval), 1)
    ensures Holds(Step(w, s, Dispatch(k, NOTHING_LOST)).shared.store, h.jobId, Sha256(h), ExecutionCommitted)
  {
    hide SystemInv, JobIdOk, Atomic, WorldValid, RowFor, Acked, Trusted, Apply, RoomFor, Holds;
    TaskKnown(w, s, k);
    SomeRoom(w, s.shared.store, 2);
    CommitGoes(w, s.shared.store, subject, h);
    Commits(w, s, i, CommitTxn(subject, h, h.issuedAt), Dispatch(k, NOTHING_LOST), 2);
  }

  lemma Works(w: World, s: System, i: nat, k: nat, subject: Text, h: Handoff, approval: Option<RecordHash>, output: Text)
    requires WorldValid(w) && Underway(w, s, i, k, subject, h, Dispatched(h.issuedAt, approval), 1) && output != []
    requires w.signs(WorkOf(h, output))
    requires Holds(s.shared.store, h.jobId, Sha256(h), ExecutionCommitted)
    ensures var next := Step(w, s, CallWorker(k, Some((Succeeded(output), WorkCompleted))));
            var r := WorkOf(h, output);
            Underway(w, next, i, k, subject, h, Ran(h.issuedAt, approval, r), 1)
            && Holds(next.shared.store, h.jobId, Sha256(h), ExecutionCommitted)
  {
    hide SystemInv, JobIdOk, WorldValid, Trusted, RoomFor;
    StepKeeps(w, s, CallWorker(k, Some((Succeeded(output), WorkCompleted))));
  }

  lemma Delivers(w: World, s: System, i: nat, k: nat, subject: Text, h: Handoff, approval: Option<RecordHash>, r: Result)
    requires WorldValid(w) && Underway(w, s, i, k, subject, h, Ran(h.issuedAt, approval, r), 1)
    requires Holds(s.shared.store, h.jobId, Sha256(h), ExecutionCommitted)
    ensures h in Step(w, s, Accept(k, h.issuedAt, NOTHING_LOST)).told
  {
    hide SystemInv, JobIdOk, Atomic, WorldValid, RowFor, Acked, Trusted, Begun, Accepts, Apply, RoomFor;
    TaskKnown(w, s, k);
    NothingAccepted(w, s, h);
    AcceptGoes(w, s.shared.store, subject, h, r, approval);
    Commits(w, s, i, AcceptTxn(subject, h, r, approval, h.issuedAt), Accept(k, h.issuedAt, NOTHING_LOST), 1);
  }

  lemma NothingAccepted(w: World, s: System, h: Handoff)
    requires SystemInv(w, s) && Holds(s.shared.store, h.jobId, Sha256(h), ExecutionCommitted)
    ensures Sha256(h) !in s.shared.store.acceptances
  {
    hide JobsOk, PendingTied, IssuancesOk, BooksBalance;
    hide ApprovalsConsistent, ApprovalsMatch, AcceptancesHistorical, ResultsMatch;
    CompletedOnlyAccepted(w, s.shared.store, h);
  }

  // ---------------------------------------------------------------- whole jobs

  /** Where the moves lead from this state. */
  ghost function From(w: World, s: System, moves: seq<Move>): System
    decreases |moves|
  {
    if moves == [] then s else From(w, Step(w, s, moves[0]), moves[1..])
  }

  lemma {:induction false} RunFrom(w: World, before: seq<Move>, after: seq<Move>)
    ensures Run(w, before + after) == From(w, Run(w, before), after)
    decreases |after|
  {
    hide Step;
    if after == [] {
      assert before + after == before;
    } else {
      assert (before + [after[0]])[..|before|] == before;
      assert before + after == before + [after[0]] + after[1..];
      RunFrom(w, before + [after[0]], after[1..]);
    }
  }

  lemma FromNext(w: World, s: System, move: Move, rest: seq<Move>)
    ensures From(w, s, [move] + rest) == From(w, Step(w, s, move), rest)
  {
    hide Step;
    assert ([move] + rest)[1..] == rest;
  }

  /** Once admitted: committed, carried out, and its result accepted. */
  function Ending(k: nat, at: int, output: Text): seq<Move> {
    [Dispatch(k, NOTHING_LOST)] + ([CallWorker(k, Some((Succeeded(output), WorkCompleted)))] + [Accept(k, at, NOTHING_LOST)])
  }

  lemma Finishes(w: World, s: System, i: nat, k: nat, subject: Text, h: Handoff, approval: Option<RecordHash>, output: Text)
    requires WorldValid(w) && Underway(w, s, i, k, subject, h, Admitted(h.issuedAt, approval), 2) && output != []
    requires w.signs(WorkOf(h, output))
    requires Holds(s.shared.store, h.jobId, Sha256(h), Reserved)
    ensures h in From(w, s, Ending(k, h.issuedAt, output)).told
  {
    hide WorldValid, Step, Underway, Holds;
    var call, accept := CallWorker(k, Some((Succeeded(output), WorkCompleted))), Accept(k, h.issuedAt, NOTHING_LOST);
    var r := WorkOf(h, output);
    Dispatches(w, s, i, k, subject, h, approval);
    var s1 := Step(w, s, Dispatch(k, NOTHING_LOST));
    Works(w, s1, i, k, subject, h, approval, output);
    var s2 := Step(w, s1, call);
    Delivers(w, s2, i, k, subject, h, approval, r);
    FromNext(w, s, Dispatch(k, NOTHING_LOST), [call] + [accept]);
    FromNext(w, s1, call, [accept]);
  }

  /** The steps of one job that needs no approval. */
  function DirectJob(i: nat, k: nat, subject: Text, jobId: Text, text: Text, at: int, output: Text): seq<Move> {
    [Submit(i, k, subject, jobId, text, at, NOTHING_LOST)] + ([Admit(k, at, NOTHING_LOST)] + Ending(k, at, output))
  }

  /** From every reachable state in which an instance is up and owes nothing, a fresh job of a
      subject that needs no approval can be driven to success. */
  lemma FreshJobSucceeds(w: World, moves: seq<Move>, i: nat, k: nat, subject: Text, jobId: Text, text: Text, at: int,
                         output: Text)
    requires WorldValid(w)
    requires var s := Run(w, moves);
             && i in s.shared.instances && !s.shared.instances[i] && k !in s.tasks && jobId !in s.used
             && RoomFor(w, s.shared.store, 4)
    requires GrantFor(w.policy.grants, subject).Some? && !GrantFor(w.policy.grants, subject).value.requiresApproval
    requires text != [] && output != [] && JobIdOk(jobId) && InTime(at) && at + w.policy.ttl <= MAX_TIME
    requires var h := Issued(w.policy, GrantFor(w.policy.grants, subject).value, jobId, text, at);
             w.issues(h) && w.signs(WorkOf(h, output))
    ensures Issued(w.policy, GrantFor(w.policy.grants, subject).value, jobId, text, at) in
            Run(w, moves + DirectJob(i, k, subject, jobId, text, at, output)).told
  {
    hide WorldValid, Step, SystemInv, RoomFor, Underway, Holds, Ending, From;
    RunKeeps(w, moves);
    var s := Run(w, moves);
    var h := Issued(w.policy, GrantFor(w.policy.grants, subject).value, jobId, text, at);
    var submit, admit := Submit(i, k, subject, jobId, text, at, NOTHING_LOST), Admit(k, at, NOTHING_LOST);
    RunFrom(w, moves, DirectJob(i, k, subject, jobId, text, at, output));
    FromNext(w, s, submit, [admit] + Ending(k, at, output));
    Submits(w, s, i, k, subject, jobId, text, at);
    var s1 := Step(w, s, submit);
    FromNext(w, s1, admit, Ending(k, at, output));
    Admits(w, s1, i, k, subject, h);
    Finishes(w, Step(w, s1, admit), i, k, subject, h, None, output);
  }

  /** The approval of a job by someone other than its owner: who, as which subject, and for how long. */
  datatype Consent = Consent(approver: Text, actor: Text, token: nat, ttl: int)

  /** The steps of one job that awaits approval. */
  function ApprovedJob(i: nat, k: nat, subject: Text, jobId: Text, text: Text, at: int, c: Consent, output: Text): seq<Move> {
    [SubmitPending(i, subject, jobId, text, at, at, NOTHING_LOST)]
    + ([Approve(i, jobId, c.approver, c.actor, c.token, c.ttl, at, NOTHING_LOST)]
    + ([Present(i, k, subject, jobId, c.token)] + ([Admit(k, at, NOTHING_LOST)] + Ending(k, at, output))))
  }

  lemma ApprovedRunsOn(w: World, s: System, i: nat, k: nat, subject: Text, h: Handoff, c: Consent, output: Text)
    requires WorldValid(w) && Ready(w, s, i, 3) && Fresh(w, subject, h) && h.pending && k !in s.tasks && output != [] && w.signs(WorkOf(h, output))
    requires Queued(s.shared.store, subject, h) && Approved(s.shared.store, h, c.token, c.ttl) && 1 <= c.ttl
    ensures var rest := [Admit(k, h.issuedAt, NOTHING_LOST)] + Ending(k, h.issuedAt, output);
            h in From(w, s, [Present(i, k, subject, h.jobId, c.token)] + rest).told
  {
    hide WorldValid, Step, Ready, Fresh, Underway, Holds, Ending, From, Queued, Approved;
    var present, admit := Present(i, k, subject, h.jobId, c.token), Admit(k, h.issuedAt, NOTHING_LOST);
    FromNext(w, s, present, [admit] + Ending(k, h.issuedAt, output));
    Presents(w, s, i, k, subject, h, c.token);
    var s1 := Step(w, s, present);
    FromNext(w, s1, admit, Ending(k, h.issuedAt, output));
    AdmitsApproved(w, s1, i, k, subject, h, c.token, c.ttl);
    var s2 := Step(w, s1, admit);
    Finishes(w, s2, i, k, subject, h, Some(s2.shared.store.tokens[c.token]), output);
  }

  /** And so can a fresh job that needs one, once somebody other than its owner approves it: queued,
      approved, presented with its token, admitted, carried out and accepted. */
  lemma ApprovedJobSucceeds(w: World, moves: seq<Move>, i: nat, k: nat, subject: Text, jobId: Text, text: Text, at: int,
                            c: Consent, output: Text)
    requires WorldValid(w)
    requires var s := Run(w, moves);
             && i in s.shared.instances && !s.shared.instances[i] && k !in s.tasks && jobId !in s.used
             && RoomFor(w, s.shared.store, 5) && |LivePending(s.shared.store, at)| < MAX_PENDING
             && c.token !in s.shared.store.tokens
    requires GrantFor(w.policy.grants, subject).Some? && GrantFor(w.policy.grants, subject).value.requiresApproval
    requires text != [] && output != [] && JobIdOk(jobId) && InTime(at) && at + w.policy.ttl <= MAX_TIME
    requires var h := Issued(w.policy, GrantFor(w.policy.grants, subject).value, jobId, text, at);
             w.issues(h) && w.signs(WorkOf(h, output))
    requires c.approver != GrantFor(w.policy.grants, subject).value.userId && 1 <= c.ttl <= MAX_APPROVAL_TTL
    ensures Issued(w.policy, GrantFor(w.policy.grants, subject).value, jobId, text, at) in
            Run(w, moves + ApprovedJob(i, k, subject, jobId, text, at, c, output)).told
  {
    hide WorldValid, Step, SystemInv, RoomFor, LivePending, Queued, Unapproved, Approved, Ending, From, Fresh;
    RunKeeps(w, moves);
    ApprovalsHaveHistory(w, moves);
    var s := Run(w, moves);
    var h := Issued(w.policy, GrantFor(w.policy.grants, subject).value, jobId, text, at);
    var queue := SubmitPending(i, subject, jobId, text, at, at, NOTHING_LOST);
    var approve := Approve(i, jobId, c.approver, c.actor, c.token, c.ttl, at, NOTHING_LOST);
    var present, admit := Present(i, k, subject, jobId, c.token), Admit(k, at, NOTHING_LOST);
    var rest := [present] + ([admit] + Ending(k, at, output));
    RunFrom(w, moves, ApprovedJob(i, k, subject, jobId, text, at, c, output));
    FromNext(w, s, queue, [approve] + rest);
    Queues(w, s, i, subject, jobId, text, at, c.token);
    var s1 := Step(w, s, queue);
    FromNext(w, s1, approve, rest);
    Approves(w, s1, i, subject, h, c.approver, c.actor, c.token, c.ttl);
    ApprovedRunsOn(w, Step(w, s1, approve), i, k, subject, h, c, output);
  }
}
