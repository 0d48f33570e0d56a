/** The wired, durable service (geniusnew/wiring.py, geniusnew/orchestrator.py) as a transition
    system: any number of instances over one database and one anchor, each job driven step by
    step, with lost acknowledgements, crashes and restarts between any two steps. */
module Service {
  import opened Prelude
  import opened Handoffs
  import opened Results
  import opened AuditChain
  import opened Ledger
  import opened Reconciliation

  // ---------------------------------------------------------------- anchored mutations

  datatype Txn =
    | IssueTxn(subject: Text, h: Handoff)
    | NoteTxn(subject: Text, h: Handoff, ofResult: bool, code: nat, at: int)
    | AddTxn(subject: Text, h: Handoff, now: int)
    | GrantTxn(jobId: Text, approver: Text, subject: Text, token: nat, ttl: int, now: int)
    | AdmitDirectTxn(subject: Text, h: Handoff, now: int)
    | AdmitApprovedTxn(subject: Text, h: Handoff, token: nat, now: int)
    | CommitTxn(subject: Text, h: Handoff, now: int)
    | AcceptTxn(subject: Text, h: Handoff, result: Result, approval: Option<RecordHash>, now: int)
    | RefuseTxn(jobId: Text, subject: Text, expired: bool, now: int)

  function Apply(w: World, st: Store, txn: Txn): Option<Store> {
    match txn
    case IssueTxn(subject, h) => IssueDirect(w, st, subject, h)
    case NoteTxn(subject, h, result, code, at) => Note(w, st, subject, h, result, code, at)
    case AddTxn(subject, h, now) => AddPending(w, st, subject, h, now)
    case GrantTxn(id, approver, subject, token, ttl, now) => GrantApproval(w, st, id, approver, subject, token, ttl, now)
    case AdmitDirectTxn(subject, h, now) => AdmitDirect(w, st, subject, h, now)
    case AdmitApprovedTxn(subject, h, token, now) => AdmitApproved(w, st, subject, h, token, now)
    case CommitTxn(subject, h, now) => CommitExecution(w, st, subject, h, now)
    case AcceptTxn(subject, h, result, approval, now) => AcceptResult(w, st, subject, h, result, approval, now)
    case RefuseTxn(id, subject, expired, now) => RefusePending(w, st, id, subject, expired, now)
  }

  /** What becomes of a commit sent to the anchor: answered, taken but its answer lost or
      garbled, or never delivered. */
  datatype Ack = Answered | AnswerLost | Undelivered

  /** `_commit_locked`: the whole stored chain against the anchor, and whether it was acknowledged. */
  function Anchored(w: World, anchor: Commitment, events: seq<Event>, ack: Ack): (Commitment, bool) {
    var records := Records(w.scheme, events);
    var head := HeadOf(w.sign, records);
    if ack == Undelivered then (anchor, false)
    else match Commit(w.scheme, anchor, head, records)
    case None => (anchor, false)
    case Some(c) => (c, ack == Answered && c == Commitment(head.count, head.headHash))
  }

  /** One database, one anchor, and per live instance whether its last commit went
      unacknowledged (`_needs_reanchor`). */
  datatype Shared = Shared(store: Store, anchor: Commitment, instances: map<nat, bool>)

  /** `_AnchoredAudit.atomic` and `append`: recover first, then one transaction, then the anchor. */
  function Atomic(w: World, s: Shared, i: nat, txn: Txn, recover: Ack, ack: Ack): (Shared, bool)
    requires i in s.instances
  {
    var (a, ready) := if s.instances[i] then Anchored(w, s.anchor, s.store.events, recover) else (s.anchor, true);
    if !ready then (s.(anchor := a), false)
    else match Apply(w, s.store, txn)
    case None => (s.(anchor := a, instances := s.instances[i := false]), false)
    case Some(st) =>
      var (b, acked) := Anchored(w, a, st.events, ack);
      (Shared(st, b, s.instances[i := !acked]), acked)
  }

  /** `_AnchoredAudit.head`. */
  function Head(w: World, s: Shared, i: nat, ack: Ack): (Shared, bool)
    requires i in s.instances
  {
    var (a, acked) := Anchored(w, s.anchor, s.store.events, ack);
    (s.(anchor := a, instances := s.instances[i := !acked]), acked)
  }

  // ---------------------------------------------------------------- jobs in flight

  /** How far one request thread has driven its job. */
  datatype Stage =
    | Routed
    | Presenting(token: nat)
    | Admitted(at: int, approval: Option<RecordHash>)
    | Dispatched(at: int, approval: Option<RecordHash>)
    | Ran(at: int, approval: Option<RecordHash>, result: Result)

  datatype Task = Task(instance: nat, subject: Text, h: Handoff, stage: Stage)

  /** `used` are the job ids issued so far, `calls` the worker calls made so far, `told` the
      handoffs for which a client was told of success. */
  datatype System = System(shared: Shared, tasks: map<nat, Task>, used: set<Text>, calls: multiset<Text>, told: set<Handoff>)

  const START := System(Shared(EMPTY_STORE, NothingCommitted(), map[]), map[], {}, multiset{}, {})

  /** The two acknowledgements of one anchored mutation. */
  datatype Acks = Acks(recover: Ack, ack: Ack)

  datatype Move =
    | Launch(i: nat, start: Ack)
    | Crash(i: nat)
    | Submit(i: nat, task: nat, subject: Text, jobId: Text, text: Text, at: int, acks: Acks)
    | SubmitPending(i: nat, subject: Text, jobId: Text, text: Text, at: int, now: int, acks: Acks)
    | Approve(i: nat, jobId: Text, approver: Text, subject: Text, token: nat, ttl: int, now: int, acks: Acks)
    | Present(i: nat, task: nat, subject: Text, jobId: Text, token: nat)
    | Admit(task: nat, now: int, acks: Acks)
    | Dispatch(task: nat, acks: Acks)
    | CallWorker(task: nat, outcome: Option<(Status, Reason)>)
    | Accept(task: nat, now: int, acks: Acks)
    | Refuse(i: nat, jobId: Text, subject: Text, expired: bool, now: int, acks: Acks)
    | Reject(i: nat, subject: Text, h: Handoff, ofResult: bool, code: nat, at: int, acks: Acks)
    | AskHead(i: nat, ack: Ack)
    | LateDelivery(n: nat)

  /** A step of the thread that drives one job. */
  predicate IsTaskMove(move: Move) { move.Admit? || move.Dispatch? || move.CallWorker? || move.Accept? }

  /** A request made at one live instance. */
  predicate IsRequest(move: Move) {
    || move.Submit? || move.SubmitPending? || move.Approve? || move.Present? || move.Refuse? || move.Reject?
    || move.AskHead?
  }

  /** Job ids are minted at random for each submission, so a new one was never issued before. */
  function Issue(w: World, s: System, subject: Text, jobId: Text, text: Text, at: int): Option<Handoff> {
    if jobId in s.used then None else IssueFor(w, subject, jobId, text, at)
  }

  /** An event was appended. */
  predicate Grew(before: Shared, after: Shared) { |after.store.events| > |before.store.events| }

  /** A thread goes on when its mutation was acknowledged, and ends otherwise. */
  function Onward(s: System, k: nat, task: Task, next: (Shared, bool), stage: Stage): System {
    s.(shared := next.0, tasks := if next.1 then s.tasks[k := task.(stage := stage)] else s.tasks - {k})
  }

  /** A start checks the committed store, has its head acknowledged, and checks the rest before it serves. */
  ghost function Launched(w: World, s: Shared, i: nat, start: Ack): Shared {
    if i in s.instances || !Opens(w, s.store) then s
    else
      var (a, acked) := Anchored(w, s.anchor, s.store.events, start);
      s.(anchor := a, instances := if acked && Serves(w, s.store) then s.instances[i := false] else s.instances)
  }

  function StepTask(w: World, s: System, move: Move): System
    requires IsTaskMove(move)
  {
    var k := move.task;
    if k !in s.tasks || s.tasks[k].instance !in s.shared.instances then s
    else
      var t := s.tasks[k];
      match (move, t.stage)
      case (Admit(_, now, acks), Routed) =>
        Onward(s, k, t, Atomic(w, s.shared, t.instance, AdmitDirectTxn(t.subject, t.h, now), acks.recover, acks.ack),
               Admitted(now, None))
      case (Admit(_, now, acks), Presenting(token)) =>
        var next := Atomic(w, s.shared, t.instance, AdmitApprovedTxn(t.subject, t.h, token, now), acks.recover, acks.ack);
        Onward(s, k, t, next, Admitted(now, if token in next.0.store.tokens then Some(next.0.store.tokens[token]) else None))
      case (Dispatch(_, acks), Admitted(at, approval)) =>
        Onward(s, k, t, Atomic(w, s.shared, t.instance, CommitTxn(t.subject, t.h, at), acks.recover, acks.ack),
               Dispatched(at, approval))
      case (CallWorker(_, outcome), Dispatched(at, approval)) =>
        var signed := if outcome.None? then None else SignedFor(w, t.h, outcome.value.0, outcome.value.1, at);
        s.(calls := s.calls + multiset{t.h.jobId},
           tasks := if signed.Some? then s.tasks[k := t.(stage := Ran(at, approval, signed.value))] else s.tasks - {k})
      case (Accept(_, now, acks), Ran(at, approval, result)) =>
        var next := Atomic(w, s.shared, t.instance, AcceptTxn(t.subject, t.h, result, approval, now), acks.recover, acks.ack);
        s.(shared := next.0, tasks := s.tasks - {k}, told := if next.1 then s.told + {t.h} else s.told)
      case _ => s
  }

  /** One step of the whole system. Everything left open — clocks, tokens, interleaving, what the
      network and the worker do — is in the move. */
  ghost function Step(w: World, s: System, move: Move): System {
    match move
    case Launch(i, start) => s.(shared := Launched(w, s.shared, i, start))
    case Crash(i) =>
      s.(shared := s.shared.(instances := s.shared.instances - {i}),
         tasks := map k | k in s.tasks && s.tasks[k].instance != i :: s.tasks[k])
    case LateDelivery(n) =>
      if n > |s.shared.store.events| then s
      else s.(shared := s.shared.(anchor := Anchored(w, s.shared.anchor, s.shared.store.events[..n], AnswerLost).0))
    case Admit(_, _, _) => StepTask(w, s, move)
    case Dispatch(_, _) => StepTask(w, s, move)
    case CallWorker(_, _) => StepTask(w, s, move)
    case Accept(_, _, _) => StepTask(w, s, move)
    case _ => if move.i !in s.shared.instances then s else StepRequest(w, s, move)
  }

  function StepRequest(w: World, s: System, move: Move): System
    requires IsRequest(move)
    requires move.i in s.shared.instances
  {
    match move
    case Submit(i, k, subject, jobId, text, at, acks) =>
      (match Issue(w, s, subject, jobId, text, at)
       case None => s
       case Some(h) =>
         if k in s.tasks then s
         else
           var next := Atomic(w, s.shared, i, IssueTxn(subject, h), acks.recover, acks.ack);
           s.(shared := next.0, used := if Grew(s.shared, next.0) then s.used + {jobId} else s.used,
              tasks := if next.1 then s.tasks[k := Task(i, subject, h, Routed)] else s.tasks))
    case SubmitPending(i, subject, jobId, text, at, now, acks) =>
      (match Issue(w, s, subject, jobId, text, at)
       case None => s
       case Some(h) =>
         var next := Atomic(w, s.shared, i, AddTxn(subject, h, now), acks.recover, acks.ack);
         s.(shared := next.0, used := if Grew(s.shared, next.0) then s.used + {jobId} else s.used))
    case Approve(i, jobId, approver, subject, token, ttl, now, acks) =>
      s.(shared := Atomic(w, s.shared, i, GrantTxn(jobId, approver, subject, token, ttl, now), acks.recover, acks.ack).0)
    case Present(i, k, subject, jobId, token) =>
      if k in s.tasks || jobId !in s.shared.store.pending || s.shared.store.pending[jobId].subject != subject then s
      else s.(tasks := s.tasks[k := Task(i, subject, s.shared.store.pending[jobId].wire, Presenting(token))])
    case Refuse(i, jobId, subject, expired, now, acks) =>
      s.(shared := Atomic(w, s.shared, i, RefuseTxn(jobId, subject, expired, now), acks.recover, acks.ack).0)
    case Reject(i, subject, h, result, code, at, acks) =>
      s.(shared := Atomic(w, s.shared, i, NoteTxn(subject, h, result, code, at), acks.recover, acks.ack).0)
    case AskHead(i, ack) => s.(shared := Head(w, s.shared, i, ack).0)
  }

  ghost function Run(w: World, moves: seq<Move>): System {
    if moves == [] then START else Step(w, Run(w, moves[..|moves| - 1]), moves[|moves| - 1])
  }
}
