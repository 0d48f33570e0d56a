/** Every step keeps the invariant, so every run does; and what that means for whole runs. */
module ServiceRuns {
  import opened Prelude
  import opened Handoffs
  import opened Results
  import opened AuditChain
  import opened Ledger
  import opened Reconciliation
  import opened LedgerInvariant
  import opened LedgerSteps
  import opened OneLiveGrant
  import opened Service
  import opened ServiceInvariant
  import opened ServiceSafety

  // ---------------------------------------------------------------- one thread's steps

  /** The invariant holds afterwards, and nothing recorded or anchored was lost. */
  ghost predicate Kept(w: World, s: System, next: System) {
    SystemInv(w, next) && SharedAdvances(s.shared, next.shared)
  }

  lemma NothingMoved(w: World, s: System)
    requires SystemInv(w, s)
    ensures Kept(w, s, s)
  {
    hide SystemInv;
    StoreStays(s.shared.store);
  }

  predicate Driven(s: System, k: nat) { k in s.tasks && s.tasks[k].instance in s.shared.instances }

  lemma AdmitKeeps(w: World, s: System, k: nat, now: int, acks: Acks)
    requires WorldValid(w) && SystemInv(w, s) && Driven(s, k) && (s.tasks[k].stage.Routed? || s.tasks[k].stage.Presenting?)
    ensures Kept(w, s, StepTask(w, s, Admit(k, now, acks)))
  {
    hide SystemInv, WorldValid, RowFor, Acked, Apply, AdmitDirect, AdmitApproved, Atomic, HasIssuance, SharedAdvances;
    var t := s.tasks[k];
    TaskKnown(w, s, k);
    var txn := if t.stage.Routed? then AdmitDirectTxn(t.subject, t.h, now)
               else AdmitApprovedTxn(t.subject, t.h, t.stage.token, now);
    MutationKeeps(w, s, t.instance, txn, acks);
    var (next, acked) := Atomic(w, s.shared, t.instance, txn, acks.recover, acks.ack);
    if acked {
      AdmittedBy(w, s.shared.store, t, now, txn);
      LastAcked(next, HandoffAdmitted, Sha256(t.h));
      var approval := if t.stage.Routed? then None
                      else if t.stage.token in next.store.tokens then Some(next.store.tokens[t.stage.token]) else None;
      ThreadMoves(w, s.(shared := next), k, t.(stage := Admitted(now, approval)));
    } else {
      ThreadsLeave(w, s.(shared := next), s.tasks - {k});
    }
  }

  lemma TaskKnown(w: World, s: System, k: nat)
    requires SystemInv(w, s) && k in s.tasks
    ensures TaskOk(s.shared, s.tasks[k])
  {
  }

  lemma RanWasCalled(w: World, s: System, k: nat)
    requires SystemInv(w, s) && k in s.tasks && s.tasks[k].stage.Ran?
    ensures s.tasks[k].h.jobId in s.calls
  {
  }

  lemma AdmittedBy(w: World, st: Store, t: Task, now: int, txn: Txn)
    requires txn == AdmitDirectTxn(t.subject, t.h, now) || exists token :: txn == AdmitApprovedTxn(t.subject, t.h, token, now)
    requires Apply(w, st, txn).Some?
    ensures var next := Apply(w, st, txn).value;
            && RowFor(next, t.subject, t.h, now) && LastNames(next, HandoffAdmitted, Sha256(t.h))
            && (t.h.pending <==> txn.AdmitApprovedTxn?) && (t.h.pending ==> txn.token in next.tokens)
  {
    hide AdmitDirect, AdmitApproved, RowFor, LastNames;
    match txn
    case AdmitDirectTxn(_, _, _) => AdmitDirectReserves(w, st, t.subject, t.h, now);
    case AdmitApprovedTxn(_, _, token, _) => AdmitApprovedReserves(w, st, t.subject, t.h, token, now);
  }

  lemma DispatchKeeps(w: World, s: System, k: nat, acks: Acks)
    requires WorldValid(w) && SystemInv(w, s) && Driven(s, k) && s.tasks[k].stage.Admitted?
    ensures Kept(w, s, StepTask(w, s, Dispatch(k, acks)))
  {
    hide SystemInv, WorldValid, RowFor, Acked, CommitExecution, Atomic, SharedAdvances, Begun;
    var t := s.tasks[k];
    var at := t.stage.at;
    TaskKnown(w, s, k);
    var txn := CommitTxn(t.subject, t.h, at);
    MutationKeeps(w, s, t.instance, txn, acks);
    var (next, acked) := Atomic(w, s.shared, t.instance, txn, acks.recover, acks.ack);
    if acked {
      CommitBegins(w, s.shared.store, t.subject, t.h, at);
      LastAcked(next, ExecutionDispatched, Sha256(t.h));
      AdvancesAcked(s.shared, next, HandoffAdmitted, Sha256(t.h));
      NotBegunYet(w, s, t.h.jobId);
      assert forall l, id :: HoldsCall(s.(shared := next), l, id) == HoldsCall(s, l, id);
      ThreadMoves(w, s.(shared := next), k, t.(stage := Dispatched(at, t.stage.approval)));
    } else {
      ThreadsLeave(w, s.(shared := next), s.tasks - {k});
    }
  }

  lemma AdvancesAcked(s: Shared, next: Shared, action: Action, d: Digest)
    requires Acked(s, action, d) && SharedAdvances(s, next)
    ensures Acked(next, action, d)
  {
    AckedStays(s, next, action, d);
  }

  /** Before its row is committed, no thread holds a job's call and no call was made. */
  lemma NotBegunYet(w: World, s: System, id: Text)
    requires SystemInv(w, s) && !Begun(s.shared.store, id)
    ensures id !in s.calls && forall l :: l in s.tasks ==> !HoldsCall(s, l, id)
  {
    hide SharedInv, GrantsApart, ToldOk, RowFor, DispatchAnchored, Begun, WorkDone;
    forall l | l in s.tasks
      ensures !HoldsCall(s, l, id)
    {
      assert TaskOk(s.shared, s.tasks[l]);
    }
  }

  /** Whoever holds a job's call is the only one, and no call was made; the anchor has its evidence. */
  lemma CallHeld(w: World, s: System, k: nat)
    requires SystemInv(w, s) && k in s.tasks && s.tasks[k].stage.Dispatched?
    ensures var t := s.tasks[k];
            && t.h.jobId !in s.calls && CalledOk(s.shared, t.h.jobId) && DispatchAnchored(s.shared, Sha256(t.h))
            && RowFor(s.shared.store, t.subject, t.h, t.stage.at) && Receipted(t.h, t.stage.approval)
            && Begun(s.shared.store, t.h.jobId)
            && forall l :: l in s.tasks && l != k ==> !HoldsCall(s, l, t.h.jobId)
  {
    hide SharedInv, GrantsApart, ToldOk, DispatchAnchored, WorkDone;
    assert TaskOk(s.shared, s.tasks[k]) && HoldsCall(s, k, s.tasks[k].h.jobId);
  }

  /** The call itself: the right to make it is spent. */
  lemma CallKeeps(w: World, s: System, k: nat, outcome: Option<(Status, Reason)>)
    requires SystemInv(w, s) && Driven(s, k) && s.tasks[k].stage.Dispatched?
    ensures Kept(w, s, StepTask(w, s, CallWorker(k, outcome)))
  {
    hide SystemInv, RowFor, CalledOk, DispatchAnchored, CallsHeldOnce, CallsOk, SharedAdvances, Begun;
    NothingMoved(w, s);
    var t := s.tasks[k];
    var id := t.h.jobId;
    CallHeld(w, s, k);
    var idle := s.(tasks := s.tasks - {k});
    ThreadsLeave(w, s, s.tasks - {k});
    CallCounted(w, idle, id);
    var called := idle.(calls := s.calls + multiset{id});
    var signed := if outcome.None? then None else SignedFor(w, t.h, outcome.value.0, outcome.value.1, t.stage.at);
    if signed.Some? {
      assert Accepts(signed.value, t.h, t.stage.at);
      var ran := t.(stage := Ran(t.stage.at, t.stage.approval, signed.value));
      ThreadMoves(w, called, k, ran);
      assert called.tasks[k := ran] == s.tasks[k := ran];
    }
  }

  lemma CallCounted(w: World, s: System, id: Text)
    requires SystemInv(w, s) && id !in s.calls && CalledOk(s.shared, id)
    requires forall l :: l in s.tasks ==> !HoldsCall(s, l, id)
    ensures SystemInv(w, s.(calls := s.calls + multiset{id}))
  {
    hide SharedInv, GrantsApart, TaskOk, CalledOk, ToldOk;
    var next := s.(calls := s.calls + multiset{id});
    assert forall l, j :: HoldsCall(next, l, j) == HoldsCall(s, l, j);
  }

  lemma AcceptKeeps(w: World, s: System, k: nat, now: int, acks: Acks)
    requires WorldValid(w) && SystemInv(w, s) && Driven(s, k) && s.tasks[k].stage.Ran?
    ensures Kept(w, s, StepTask(w, s, Accept(k, now, acks)))
  {
    hide SystemInv, WorldValid, RowFor, Acked, AcceptResult, Atomic, SharedAdvances, Done;
    var t := s.tasks[k];
    TaskKnown(w, s, k);
    RanWasCalled(w, s, k);
    var txn := AcceptTxn(t.subject, t.h, t.stage.result, t.stage.approval, now);
    MutationKeeps(w, s, t.instance, txn, acks);
    var (next, acked) := Atomic(w, s.shared, t.instance, txn, acks.recover, acks.ack);
    var moved := s.(shared := next);
    ThreadsLeave(w, moved, s.tasks - {k});
    if acked {
      AcceptCompletes(w, s.shared.store, t.subject, t.h, t.stage.result, t.stage.approval, now);
      LastAcked(next, ResultAccepted, Sha256(t.h));
      Tell(w, moved.(tasks := s.tasks - {k}), t.h);
    }
  }

  lemma Tell(w: World, s: System, h: Handoff)
    requires SystemInv(w, s) && ToldOk(s.shared, h)
    ensures SystemInv(w, s.(told := s.told + {h}))
  {
    hide SharedInv, GrantsApart, TaskOk, CalledOk, ToldOk, Earned;
    var next := s.(told := s.told + {h});
    assert forall k, id :: HoldsCall(next, k, id) == HoldsCall(s, k, id);
  }

  lemma TaskStepKeeps(w: World, s: System, move: Move)
    requires WorldValid(w) && SystemInv(w, s)
    requires IsTaskMove(move)
    ensures Kept(w, s, StepTask(w, s, move))
  {
    hide SystemInv, WorldValid, Atomic, SignedFor, SharedAdvances;
    NothingMoved(w, s);
    var k := move.task;
    if Driven(s, k) {
      match (move, s.tasks[k].stage)
      case (Admit(_, now, acks), Routed) => AdmitKeeps(w, s, k, now, acks);
      case (Admit(_, now, acks), Presenting(_)) => AdmitKeeps(w, s, k, now, acks);
      case (Dispatch(_, acks), Admitted(_, _)) => DispatchKeeps(w, s, k, acks);
      case (CallWorker(_, outcome), Dispatched(_, _)) => CallKeeps(w, s, k, outcome);
      case (Accept(_, now, acks), Ran(_, _, _)) => AcceptKeeps(w, s, k, now, acks);
      case _ =>
    }
  }

  // ---------------------------------------------------------------- requests, starts and crashes

  lemma SubmitKeeps(w: World, s: System, move: Move)
    requires WorldValid(w) && SystemInv(w, s) && move.Submit? && move.i in s.shared.instances
    ensures Kept(w, s, StepRequest(w, s, move))
  {
    hide SystemInv, WorldValid, Atomic, HasIssuance, SharedAdvances, JobIdOk, IssueDirect;
    NothingMoved(w, s);
    var Submit(i, k, subject, jobId, text, at, acks) := move;
    var issued := Issue(w, s, subject, jobId, text, at);
    if issued.Some? && k !in s.tasks {
      var h := issued.value;
      var txn := IssueTxn(subject, h);
      MutationKeeps(w, s, i, txn, acks);
      var (next, acked) := Atomic(w, s.shared, i, txn, acks.recover, acks.ack);
      if acked {
        IssueRecords(w, s.shared.store, subject, h);
        ThreadMoves(w, s.(shared := next, used := if Grew(s.shared, next) then s.used + {jobId} else s.used), k,
                    Task(i, subject, h, Routed));
      }
    }
  }

  lemma IssueRecords(w: World, st: Store, subject: Text, h: Handoff)
    requires IssueDirect(w, st, subject, h).Some?
    ensures HasIssuance(IssueDirect(w, st, subject, h).value.events, Sha256(h), subject)
  {
    assert Issues(IssueDirect(w, st, subject, h).value.events[|st.events|], Sha256(h), subject);
  }

  lemma PendKeeps(w: World, s: System, move: Move)
    requires WorldValid(w) && SystemInv(w, s) && move.SubmitPending? && move.i in s.shared.instances
    ensures Kept(w, s, StepRequest(w, s, move))
  {
    hide SystemInv, WorldValid, Atomic, SharedAdvances, JobIdOk, AddPending;
    NothingMoved(w, s);
    var SubmitPending(i, subject, jobId, text, at, now, acks) := move;
    var issued := Issue(w, s, subject, jobId, text, at);
    if issued.Some? {
      MutationKeeps(w, s, i, AddTxn(subject, issued.value, now), acks);
    }
  }

  lemma PresentKeeps(w: World, s: System, move: Move)
    requires SystemInv(w, s) && move.Present? && move.i in s.shared.instances
    ensures Kept(w, s, StepRequest(w, s, move))
  {
    hide SystemInv, SharedAdvances;
    NothingMoved(w, s);
    var Present(i, k, subject, jobId, token) := move;
    if k !in s.tasks && jobId in s.shared.store.pending && s.shared.store.pending[jobId].subject == subject {
      ThreadMoves(w, s, k, Task(i, subject, s.shared.store.pending[jobId].wire, Presenting(token)));
    }
  }

  lemma RequestKeeps(w: World, s: System, move: Move)
    requires WorldValid(w) && SystemInv(w, s)
    requires IsRequest(move)
    requires move.i in s.shared.instances
    ensures Kept(w, s, StepRequest(w, s, move))
  {
    hide SystemInv, WorldValid, Atomic, SharedAdvances, Apply, Issue, Head, HasIssuance, RowFor, JobIdOk, LivePending, Grew;
    match move
    case Submit(_, _, _, _, _, _, _) => SubmitKeeps(w, s, move);
    case SubmitPending(_, _, _, _, _, _, _) => PendKeeps(w, s, move);
    case Approve(i, jobId, approver, subject, token, ttl, now, acks) =>
      MutationKeeps(w, s, i, GrantTxn(jobId, approver, subject, token, ttl, now), acks);
    case Present(_, _, _, _, _) => PresentKeeps(w, s, move);
    case Refuse(i, jobId, subject, expired, now, acks) => MutationKeeps(w, s, i, RefuseTxn(jobId, subject, expired, now), acks);
    case Reject(i, subject, h, ofResult, code, at, acks) => MutationKeeps(w, s, i, NoteTxn(subject, h, ofResult, code, at), acks);
    case AskHead(i, ack) => AnchorMoves(w, s, Head(w, s.shared, i, ack).0, move);
  }

  /** Only the anchor and the instances move. */
  lemma AnchorMoves(w: World, s: System, next: Shared, move: Move)
    requires WorldValid(w) && SystemInv(w, s)
    requires match move
             case AskHead(i, ack) => i in s.shared.instances && next == Head(w, s.shared, i, ack).0
             case Launch(i, start) => next == Launched(w, s.shared, i, start)
             case LateDelivery(n) => n <= |s.shared.store.events|
                                     && next == s.shared.(anchor := Anchored(w, s.shared.anchor, s.shared.store.events[..n],
                                                                             AnswerLost).0)
             case Crash(i) => next == s.shared.(instances := s.shared.instances - {i})
             case _ => false
    ensures Kept(w, s, s.(shared := next)) && next.store == s.shared.store
  {
    hide WorldValid, Inv, GrantsApart, TaskOk, CalledOk, ToldOk, Anchored, Opens, Serves, CommitmentTo, Advances, Earned;
    match move {
      case AskHead(i, ack) => HeadKeeps(w, s.shared, s.used, i, ack);
      case Launch(i, start) => LaunchedKeeps(w, s.shared, s.used, i, start);
      case LateDelivery(n) => LateKeeps(w, s.shared, s.used, n);
      case Crash(i) => StoreStays(s.shared.store);
    }
    SharedMoves(w, s, next, s.used);
  }

  /** Every step keeps the invariant. */
  lemma StepKeeps(w: World, s: System, move: Move)
    requires WorldValid(w) && SystemInv(w, s)
    ensures Kept(w, s, Step(w, s, move))
  {
    hide SystemInv, WorldValid, StepTask, StepRequest, Launched, Anchored, SharedAdvances;
    NothingMoved(w, s);
    match move
    case Launch(i, start) => AnchorMoves(w, s, Launched(w, s.shared, i, start), move);
    case Crash(i) =>
      var next := s.shared.(instances := s.shared.instances - {i});
      AnchorMoves(w, s, next, move);
      ThreadsLeave(w, s.(shared := next), Step(w, s, move).tasks);
    case LateDelivery(n) =>
      if n <= |s.shared.store.events| {
        AnchorMoves(w, s, s.shared.(anchor := Anchored(w, s.shared.anchor, s.shared.store.events[..n], AnswerLost).0), move);
      }
    case Admit(_, _, _) => TaskStepKeeps(w, s, move);
    case Dispatch(_, _) => TaskStepKeeps(w, s, move);
    case CallWorker(_, _) => TaskStepKeeps(w, s, move);
    case Accept(_, _, _) => TaskStepKeeps(w, s, move);
    case _ =>
      if move.i in s.shared.instances {
        RequestKeeps(w, s, move);
      }
  }

  lemma StartsKept(w: World)
    requires WorldValid(w)
    ensures SystemInv(w, START)
  {
    hide WorldValid;
    assert Inv(w, EMPTY_STORE, {});
    assert EMPTY_STORE.events[..0] == [];
  }

  /** The invariant holds in every state that any run reaches. */
  lemma {:induction false} RunKeeps(w: World, moves: seq<Move>)
    requires WorldValid(w)
    ensures SystemInv(w, Run(w, moves))
  {
    hide SystemInv, WorldValid, Step;
    if moves == [] {
      StartsKept(w);
    } else {
      RunKeeps(w, moves[..|moves| - 1]);
      StepKeeps(w, Run(w, moves[..|moves| - 1]), moves[|moves| - 1]);
    }
  }
}
