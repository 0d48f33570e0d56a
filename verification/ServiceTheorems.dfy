/** What the durable service guarantees over every run, for any number of instances unless said
    otherwise. */
module ServiceTheorems {
  import opened Prelude
  import opened Handoffs
  import opened Results
  import opened AuditChain
  import opened Ledger
  import opened Reconciliation
  import opened LedgerInvariant
  import opened Reopening
  import opened OneLiveGrant
  import opened Service
  import opened ServiceInvariant
  import opened ServiceSafety
  import opened ServiceRuns

  // ---------------------------------------------------------------- reopening

  /** The start-up reconciliation succeeds in a reachable state exactly when no job outlives the
      audit clock, and then, and only then, can an instance that is down be started. */
  lemma ReopensExactly(w: World, moves: seq<Move>, i: nat)
    requires WorldValid(w)
    ensures var s := Run(w, moves).shared;
            && (Reconciles(w, s.store) <==> NoLateJob(s.store.jobs))
            && (Opens(w, s.store) <==> NoLateJob(s.store.jobs))
            && (i !in s.instances ==> (i in Launched(w, s, i, Answered).instances <==> NoLateJob(s.store.jobs)))
  {
    hide Inv, Reconciles, Opens, Serves, NoLateJob, Launched, Anchored, CommitmentTo;
    RunKeeps(w, moves);
    var s := Run(w, moves);
    ReconcilesExactly(w, s.shared.store, s.used);
    LaunchedKeeps(w, s.shared, s.used, i, Answered);
    NoStartUnreconciled(w, s.shared, i, Answered);
  }

  lemma NoStartUnreconciled(w: World, s: Shared, i: nat, start: Ack)
    ensures !Opens(w, s.store) ==> Launched(w, s, i, start) == s
  {
    hide Opens, Serves, Anchored;
  }

  /** The store a run leaves is never ahead of what later runs leave: rows keep their identity and
      only rise, events and anchored events stay. */
  lemma {:induction false} RunsAdvance(w: World, before: seq<Move>, after: seq<Move>)
    requires WorldValid(w)
    ensures SharedAdvances(Run(w, before).shared, Run(w, before + after).shared)
  {
    hide WorldValid, Step, JobsEvolve, SystemInv;
    if after == [] {
      assert before + after == before;
      RunKeeps(w, before);
      NothingMoved(w, Run(w, before));
    } else {
      var n := |after| - 1;
      var all := before + after;
      assert all[..|all| - 1] == before + after[..n];
      RunsAdvance(w, before, after[..n]);
      var mid := Run(w, before + after[..n]);
      RunKeeps(w, before + after[..n]);
      StepKeeps(w, mid, after[n]);
      EvolvingComposes(Run(w, before).shared.store.jobs, mid.shared.store.jobs, Step(w, mid, after[n]).shared.store.jobs);
    }
  }

  lemma EvolvingComposes(a: map<Text, JobRow>, b: map<Text, JobRow>, c: map<Text, JobRow>)
    requires JobsEvolve(a, b) && JobsEvolve(b, c)
    ensures JobsEvolve(a, c)
  {
    forall id | id in a
      ensures id in c && RowEvolves(a[id], c[id])
    {
      assert RowEvolves(a[id], b[id]) && RowEvolves(b[id], c[id]);
    }
  }

  /** Once a job outlives the audit clock, no instance ever starts again. */
  lemma LateForever(w: World, before: seq<Move>, after: seq<Move>, i: nat, start: Ack)
    requires WorldValid(w) && !NoLateJob(Run(w, before).shared.store.jobs)
    ensures var s := Run(w, before + after).shared;
            !Reconciles(w, s.store) && Launched(w, s, i, start) == s
  {
    hide Reconciles, Opens, Launched, RowEvolves, Run;
    RunsAdvance(w, before, after);
    LateStays(Run(w, before).shared.store.jobs, Run(w, before + after).shared.store.jobs);
    ReopensExactly(w, before + after, i);
    NoStartUnreconciled(w, Run(w, before + after).shared, i, start);
  }

  lemma LateStays(jobs: map<Text, JobRow>, next: map<Text, JobRow>)
    requires JobsEvolve(jobs, next) && !NoLateJob(jobs)
    ensures !NoLateJob(next)
  {
    var id :| id in jobs && jobs[id].expiresAt > MAX_TIME;
    assert RowEvolves(jobs[id], next[id]);
  }

  /** A transaction brings in a late job exactly when it pends one that expires after the audit
      clock: `PostgresPendingJobs.add` is the one insertion without the bound. */
  lemma LateExactlyWhenPendedLate(w: World, st: Store, txn: Txn)
    requires Apply(w, st, txn).Some? && NoLateJob(st.jobs)
    ensures NoLateJob(Apply(w, st, txn).value.jobs) <==> (txn.AddTxn? ==> txn.h.expiresAt <= MAX_TIME)
  {
    hide Admissible, RecordValid, JobIdOk, LivePending, LiveGrant, Accepts;
    if txn.AddTxn? {
      assert Apply(w, st, txn).value.jobs[txn.h.jobId].expiresAt == txn.h.expiresAt;
    }
  }

  /** The run that shuts the service out: one approval-bound job issued at the last second. */
  function LastSecond(subject: Text, jobId: Text, text: Text): seq<Move> {
    [Launch(0, Answered), SubmitPending(0, subject, jobId, text, MAX_TIME, MAX_TIME, Acks(Answered, Answered))]
  }

  lemma LastSecondShutsOut(w: World, subject: Text, jobId: Text, text: Text, i: nat, start: Ack, after: seq<Move>)
    requires WorldValid(w) && GrantFor(w.policy.grants, subject).Some?
    requires GrantFor(w.policy.grants, subject).value.requiresApproval
    requires JobIdOk(jobId) && text != [] && RoomFor(w, EMPTY_STORE, 1)
    requires w.issues(Issued(w.policy, GrantFor(w.policy.grants, subject).value, jobId, text, MAX_TIME))
    ensures var s := Run(w, LastSecond(subject, jobId, text) + after).shared;
            !Reconciles(w, s.store) && Launched(w, s, i, start) == s
  {
    hide Reconciles, Launched, WorldValid, SystemInv, SharedInv, NoLateJob, Apply, Step, RoomFor, Octets;
    var moves := LastSecond(subject, jobId, text);
    assert moves[..1] == [Launch(0, Answered)] && moves[..1][..0] == [];
    var up := Run(w, moves[..1]);
    FirstLaunch(w, moves[..1]);
    var h := Issue(w, up, subject, jobId, text, MAX_TIME).value;
    TtlPositive(w);
    PendsFirst(w, subject, h);
    assert up.shared.store == EMPTY_STORE;
    assert Run(w, moves) == Step(w, up, moves[1]);
    PendsInFull(w, up, h, moves[1]);
    LateForever(w, moves, after, i, start);
  }

  /** A queueing request at an instance that owes nothing leaves what its transaction writes. */
  lemma PendsInFull(w: World, s: System, h: Handoff, move: Move)
    requires move.SubmitPending? && move.i in s.shared.instances && !s.shared.instances[move.i]
    requires Issue(w, s, move.subject, move.jobId, move.text, move.at) == Some(h)
    requires Apply(w, s.shared.store, AddTxn(move.subject, h, move.now)).Some?
    ensures Step(w, s, move).shared.store == Apply(w, s.shared.store, AddTxn(move.subject, h, move.now)).value
  {
    hide Apply, Anchored, Issue;
  }

  lemma FirstLaunch(w: World, moves: seq<Move>)
    requires WorldValid(w) && moves == [Launch(0, Answered)]
    ensures Run(w, moves) == START.(shared := Run(w, moves).shared)
    ensures Run(w, moves).shared.store == EMPTY_STORE && Run(w, moves).shared.instances == map[0 := false]
  {
    hide Reconciles, Opens, Serves, Anchored, WorldValid, SystemInv, SharedInv;
    assert moves[..0] == [];
    assert Run(w, moves[..0]) == START;
    assert Run(w, moves) == Step(w, START, moves[0]);
    ReopensExactly(w, [], 0);
    assert Launched(w, START.shared, 0, Answered).instances == map[0 := false];
  }

  lemma PendsFirst(w: World, subject: Text, h: Handoff)
    requires h.pending && Admissible(w, subject, h.jobId, h, MAX_TIME) && h.issuedAt == MAX_TIME < h.expiresAt
    requires RoomFor(w, EMPTY_STORE, 1)
    ensures Apply(w, EMPTY_STORE, AddTxn(subject, h, MAX_TIME)).Some?
    ensures !NoLateJob(Apply(w, EMPTY_STORE, AddTxn(subject, h, MAX_TIME)).value.jobs)
  {
    hide Admissible, RoomFor;
    RoomForOne(w, EMPTY_STORE, 1);
    assert LivePending(EMPTY_STORE, MAX_TIME) == {};
    var st := Apply(w, EMPTY_STORE, AddTxn(subject, h, MAX_TIME)).value;
    assert st.jobs[h.jobId].expiresAt == h.expiresAt;
  }

  // ---------------------------------------------------------------- the worker

  /** The worker is called at most once for any job id, and for every completed job exactly once. */
  lemma WorkerCalledOnce(w: World, moves: seq<Move>, id: Text)
    requires WorldValid(w)
    ensures var s := Run(w, moves);
            && s.calls[id] <= 1
            && (id in s.shared.store.jobs && s.shared.store.jobs[id].state == Completed ==> s.calls[id] == 1)
  {
    hide SharedInv, GrantsApart, TaskOk, CalledOk, ToldOk, CallsHeldOnce;
    RunKeeps(w, moves);
  }

  /** Whenever the worker is called, the anchor already holds the job's admission and dispatch. */
  lemma WorkerOnlyAfterAnchored(w: World, moves: seq<Move>, move: Move, id: Text)
    requires WorldValid(w) && Run(w, moves + [move]).calls[id] != Run(w, moves).calls[id]
    ensures var s := Run(w, moves).shared;
            id in s.store.jobs && s.store.jobs[id].state in {ExecutionCommitted, Completed}
            && DispatchAnchored(s, s.store.jobs[id].digest)
  {
    hide SystemInv, WorldValid, DispatchAnchored, Step;
    assert (moves + [move])[..|moves|] == moves;
    var s := Run(w, moves);
    RunKeeps(w, moves);
    CallsChange(w, s, move);
    CallHeld(w, s, move.task);
  }

  lemma RequestsCallNobody(w: World, s: System, move: Move)
    requires IsRequest(move)
    requires move.i in s.shared.instances
    ensures StepRequest(w, s, move).calls == s.calls && StepRequest(w, s, move).told == s.told
  {
    hide Atomic, Issue, Head;
  }

  lemma CallsChange(w: World, s: System, move: Move)
    ensures Step(w, s, move).calls != s.calls ==>
              move.CallWorker? && Driven(s, move.task) && s.tasks[move.task].stage.Dispatched?
              && Step(w, s, move).calls == s.calls + multiset{s.tasks[move.task].h.jobId}
    ensures Step(w, s, move).told != s.told ==> move.Accept?
  {
    hide Atomic, Launched, Anchored, StepRequest, SignedFor;
    match move {
      case Launch(_, _) =>
      case Crash(_) =>
      case LateDelivery(_) =>
      case Admit(_, _, _) =>
      case Dispatch(_, _) =>
      case CallWorker(_, _) =>
      case Accept(_, _, _) =>
      case _ =>
        if move.i in s.shared.instances {
          RequestsCallNobody(w, s, move);
        }
    }
  }

  /** A client is told of success only for a completed job whose worker was called, and only once
      the anchor holds the acceptance. */
  lemma SuccessOnlyAnchored(w: World, moves: seq<Move>, h: Handoff)
    requires WorldValid(w) && h in Run(w, moves).told
    ensures var s := Run(w, moves);
            && Done(s.shared.store, h) && s.calls[h.jobId] == 1
            && Acked(s.shared, ResultAccepted, Sha256(h))
  {
    hide SharedInv, GrantsApart, TaskOk, CallsOk, CallsHeldOnce, Acked, WorkDone;
    RunKeeps(w, moves);
    assert ToldOk(Run(w, moves).shared, h);
    WorkerCalledOnce(w, moves, h.jobId);
  }

  /** A signed result at the end of its thread: the transaction that takes it goes through exactly
      when it comes in time, nothing was accepted for this handoff before, and the log has room. */
  lemma ResultTakenExactly(w: World, moves: seq<Move>, k: nat, now: int)
    requires WorldValid(w) && k in Run(w, moves).tasks && Run(w, moves).tasks[k].stage.Ran?
    ensures var s := Run(w, moves);
            var t := s.tasks[k];
            var st := s.shared.store;
            var e := EventOf(w, t.h, ResultAccepted, OtherReason(0), now, t.subject, t.stage.approval, Some(t.stage.result));
            AcceptResult(w, st, t.subject, t.h, t.stage.result, t.stage.approval, now).Some? <==>
              && t.stage.at <= now < t.h.expiresAt && InTime(now)
              && Sha256(t.h) !in st.acceptances && w.fits(st.events + [e])
  {
    hide WorldValid, PendingTied, IssuancesOk, BooksBalance, ApprovalsConsistent, ApprovalsMatch, ResultsMatch, AnchorHolds;
    hide GrantsApart, CallsOk, CallsHeldOnce, WorkDone, ToldOk, Step, JobsOk, AcceptancesHistorical;
    RunKeeps(w, moves);
    var s := Run(w, moves);
    var t := s.tasks[k];
    assert TaskOk(s.shared, t);
    RowStaysTrusted(w, s.shared.store, t.subject, t.h, t.stage.at);
    CompletedOnlyAccepted(w, s.shared.store, t.h);
  }

  lemma RowStaysTrusted(w: World, st: Store, subject: Text, h: Handoff, at: int)
    requires JobsOk(w, st.jobs) && RowFor(st, subject, h, at)
    ensures Trusted(w.policy, subject, h.jobId, h)
  {
    assert JobOk(w, h.jobId, st.jobs[h.jobId]);
  }

  // ---------------------------------------------------------------- the anchor

  /** The anchor always stands for a prefix of the stored log, and what it stood for stays a prefix. */
  lemma AnchorStaysPrefix(w: World, before: seq<Move>, after: seq<Move>)
    requires WorldValid(w)
    ensures var s, next := Run(w, before).shared, Run(w, before + after).shared;
            && AnchorHolds(w, s) && AnchorHolds(w, next)
            && s.anchor.count <= next.anchor.count
            && s.store.events[..s.anchor.count] <= next.store.events[..next.anchor.count]
  {
    hide Inv, GrantsApart, TaskOk, CallsOk, CallsHeldOnce, WorkDone, ToldOk, CommitmentTo, JobsEvolve, Step;
    RunKeeps(w, before);
    RunKeeps(w, before + after);
    RunsAdvance(w, before, after);
    assert AnchorHolds(w, Run(w, before).shared) && AnchorHolds(w, Run(w, before + after).shared);
  }

  // ---------------------------------------------------------------- approvals

  /** In every reachable state, at every instant, at most one token admits a job, whatever the
      clocks of its grants did. */
  lemma OneTokenAdmits(w: World, moves: seq<Move>, s: Text, h: Handoff, t: nat, s': Text, h': Handoff, u: nat, now: int)
    requires WorldValid(w) && h.jobId == h'.jobId
    requires AdmitApproved(w, Run(w, moves).shared.store, s, h, t, now).Some?
    requires AdmitApproved(w, Run(w, moves).shared.store, s', h', u, now).Some?
    ensures t == u && h == h' && s == s'
  {
    hide SharedInv, TaskOk, CallsOk, CallsHeldOnce, WorkDone, ToldOk, AdmitApproved, Step, GrantsApart;
    RunKeeps(w, moves);
    OneConsumableToken(w, Run(w, moves).shared.store, s, h, t, s', h', u, now);
  }

  /** Under a clock that has not fallen behind any grant, at most one grant of a job is unexpired. */
  lemma OneUnexpiredGrant(w: World, moves: seq<Move>, t: nat, u: nat, now: int)
    requires WorldValid(w)
    requires var st := Run(w, moves).shared.store;
             && TipGranted(st, t) && TipGranted(st, u)
             && st.approvals[st.tokens[t]].scope == st.approvals[st.tokens[u]].scope
             && st.approvals[st.tokens[t]].issuedAt <= now < st.approvals[st.tokens[t]].expiresAt
             && st.approvals[st.tokens[u]].issuedAt <= now < st.approvals[st.tokens[u]].expiresAt
    ensures t == u
  {
    hide SharedInv, TaskOk, CallsOk, CallsHeldOnce, WorkDone, ToldOk, Step;
    RunKeeps(w, moves);
    assert Apart(Run(w, moves).shared.store, t, u);
  }

  lemma HistoryIsShort(st: Store, t: nat)
    requires ApprovalsConsistent(st) && t in st.tokens
    ensures 1 <= |History(st.approvals, t)| <= 2
  {
    hide RecordValid, ConsumedBound;
    assert HistoryOf(st.approvals, t, st.tokens[t]);
  }

  lemma ConsumedApart(st: Store, t: nat, u: nat)
    requires ApprovalsConsistent(st) && TipConsumed(st, t) && TipConsumed(st, u) && t != u
    ensures st.approvals[st.tokens[t]].scope.jobId != st.approvals[st.tokens[u]].scope.jobId
  {
    hide RecordValid, ConsumedBound, HistoryOf;
    assert ConsumesApart(st, t, u);
  }

  /** Among all tokens ever granted, at most one is consumed for a job; each token's history is a
      granted root and at most one terminal successor. */
  lemma OneConsumedToken(w: World, moves: seq<Move>, t: nat, u: nat)
    requires WorldValid(w)
    ensures var st := Run(w, moves).shared.store;
            && ApprovalsConsistent(st)
            && (TipConsumed(st, t) && TipConsumed(st, u) && t != u ==>
                  st.approvals[st.tokens[t]].scope.jobId != st.approvals[st.tokens[u]].scope.jobId)
            && (t in st.tokens ==> 1 <= |History(st.approvals, t)| <= 2)
  {
    hide JobsOk, PendingTied, IssuancesOk, BooksBalance;
    hide ApprovalsConsistent, ApprovalsMatch, AcceptancesHistorical, ResultsMatch;
    hide GrantsApart, TaskOk, CallsOk, CallsHeldOnce, WorkDone, ToldOk, Step, AnchorHolds, History;
    RunKeeps(w, moves);
    var st := Run(w, moves).shared.store;
    if TipConsumed(st, t) && TipConsumed(st, u) && t != u {
      ConsumedApart(st, t, u);
    }
    if t in st.tokens {
      HistoryIsShort(st, t);
    }
  }
}
