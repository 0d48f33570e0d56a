/** Safety of the whole service over every run: any number of instances, any interleaving, lost
    acknowledgements, crashes, restarts and clocks that step back. */
module ServiceSafety {
  import opened Prelude
  import opened Handoffs
  import opened Results
  import opened Ledger
  import opened LedgerInvariant
  import opened OneLiveGrant
  import opened Service
  import opened ServiceInvariant

  // ---------------------------------------------------------------- what is anchored

  predicate Names(e: Event, action: Action, d: Digest) { e.action == action && e.digest == d }

  /** The anchor has taken a chain that holds this event. */
  predicate Acked(s: Shared, action: Action, d: Digest) {
    exists j :: 0 <= j < s.anchor.count && j < |s.store.events| && Names(s.store.events[j], action, d)
  }

  lemma AckedStays(s: Shared, next: Shared, action: Action, d: Digest)
    requires Acked(s, action, d) && s.store.events <= next.store.events && s.anchor.count <= next.anchor.count
    ensures Acked(next, action, d)
  {
    var j :| 0 <= j < s.anchor.count && j < |s.store.events| && Names(s.store.events[j], action, d);
    assert next.store.events[j] == s.store.events[j];
  }

  /** The worker may have been called for this job. */
  predicate Begun(st: Store, id: Text) {
    id in st.jobs && st.jobs[id].state in {ExecutionCommitted, Completed}
  }

  predicate Done(st: Store, h: Handoff) {
    h.jobId in st.jobs && st.jobs[h.jobId].digest == Sha256(h) && st.jobs[h.jobId].state == Completed
  }

  predicate DispatchAnchored(s: Shared, d: Digest) {
    Acked(s, HandoffAdmitted, d) && Acked(s, ExecutionDispatched, d)
  }

  // ---------------------------------------------------------------- the invariant of a run

  predicate TaskOk(s: Shared, t: Task) {
    match t.stage
    case Routed => HasIssuance(s.store.events, Sha256(t.h), t.subject)
    case Presenting(_) => true
    case Admitted(at, approval) =>
      RowFor(s.store, t.subject, t.h, at) && Receipted(t.h, approval) && Acked(s, HandoffAdmitted, Sha256(t.h))
    case Dispatched(at, approval) =>
      && RowFor(s.store, t.subject, t.h, at) && Receipted(t.h, approval)
      && Begun(s.store, t.h.jobId) && DispatchAnchored(s, Sha256(t.h))
    case Ran(at, approval, result) =>
      && RowFor(s.store, t.subject, t.h, at) && Receipted(t.h, approval)
      && Begun(s.store, t.h.jobId) && Accepts(result, t.h, at) && result.producedAt == at
  }

  /** An approval-bound job carries the receipt it was admitted on, and no other job does. */
  predicate Receipted(h: Handoff, approval: Option<RecordHash>) { approval.Some? <==> h.pending }

  predicate CalledOk(s: Shared, id: Text) {
    Begun(s.store, id) && DispatchAnchored(s, s.store.jobs[id].digest)
  }

  predicate ToldOk(s: Shared, h: Handoff) {
    Done(s.store, h) && Acked(s, ResultAccepted, Sha256(h))
  }

  /** Only one thread holds the right to call the worker for a job, and only until it does. */
  predicate HoldsCall(s: System, k: nat, id: Text) {
    k in s.tasks && s.tasks[k].stage.Dispatched? && s.tasks[k].h.jobId == id
  }

  predicate CallsHeldOnce(s: System) {
    && (forall k, l :: k in s.tasks && l in s.tasks && k != l && HoldsCall(s, k, s.tasks[k].h.jobId) ==>
          !HoldsCall(s, l, s.tasks[k].h.jobId))
    && (forall k :: k in s.tasks && HoldsCall(s, k, s.tasks[k].h.jobId) ==> s.tasks[k].h.jobId !in s.calls)
  }

  ghost predicate CallsOk(s: System) {
    forall id :: s.calls[id] <= 1 && (id in s.calls ==> CalledOk(s.shared, id))
  }

  /** Nothing is completed, and no result is held, without the worker having been called. */
  ghost predicate WorkDone(s: System) {
    && Earned(s.shared.store, s.calls)
    && (forall k :: k in s.tasks && s.tasks[k].stage.Ran? ==> s.tasks[k].h.jobId in s.calls)
  }

  predicate Earned(st: Store, calls: multiset<Text>) {
    forall id :: id in st.jobs && st.jobs[id].state == Completed ==> id in calls
  }

  ghost predicate SystemInv(w: World, s: System) {
    && SharedInv(w, s.shared, s.used)
    && GrantsApart(s.shared.store)
    && (forall k :: k in s.tasks ==> TaskOk(s.shared, s.tasks[k]))
    && CallsHeldOnce(s)
    && CallsOk(s)
    && WorkDone(s)
    && (forall h :: h in s.told ==> ToldOk(s.shared, h))
  }

  // ---------------------------------------------------------------- advancing keeps what was known

  lemma RowForStays(st: Store, next: Store, subject: Text, h: Handoff, at: int)
    requires RowFor(st, subject, h, at) && JobsEvolve(st.jobs, next.jobs)
    ensures RowFor(next, subject, h, at)
    ensures Begun(st, h.jobId) ==> Begun(next, h.jobId)
  {
    assert RowEvolves(st.jobs[h.jobId], next.jobs[h.jobId]);
  }

  lemma BegunStays(st: Store, next: Store, id: Text)
    requires Begun(st, id) && JobsEvolve(st.jobs, next.jobs)
    ensures Begun(next, id) && next.jobs[id].digest == st.jobs[id].digest
    ensures st.jobs[id].state == Completed ==> next.jobs[id] == st.jobs[id]
  {
    assert RowEvolves(st.jobs[id], next.jobs[id]);
  }

  lemma HasIssuanceStays(events: seq<Event>, next: seq<Event>, d: Digest, subject: Text)
    requires HasIssuance(events, d, subject) && events <= next
    ensures HasIssuance(next, d, subject)
  {
    var i :| 0 <= i < |events| && Issues(events[i], d, subject);
    assert Issues(next[i], d, subject);
  }

  lemma AnchoredStays(s: Shared, next: Shared, d: Digest)
    requires DispatchAnchored(s, d) && s.store.events <= next.store.events && s.anchor.count <= next.anchor.count
    ensures DispatchAnchored(next, d)
  {
    AckedStays(s, next, HandoffAdmitted, d);
    AckedStays(s, next, ExecutionDispatched, d);
  }

  lemma TaskStays(s: Shared, next: Shared, t: Task)
    requires TaskOk(s, t) && SharedAdvances(s, next)
    ensures TaskOk(next, t)
  {
    hide Acked, HasIssuance, RowFor, Begun, JobsEvolve, Accepts;
    match t.stage
    case Routed => HasIssuanceStays(s.store.events, next.store.events, Sha256(t.h), t.subject);
    case Presenting(_) =>
    case Admitted(at, _) =>
      RowForStays(s.store, next.store, t.subject, t.h, at);
      AckedStays(s, next, HandoffAdmitted, Sha256(t.h));
    case Dispatched(at, _) =>
      RowForStays(s.store, next.store, t.subject, t.h, at);
      AnchoredStays(s, next, Sha256(t.h));
    case Ran(at, _, _) => RowForStays(s.store, next.store, t.subject, t.h, at);
  }

  lemma CalledStays(s: Shared, next: Shared, id: Text)
    requires CalledOk(s, id) && SharedAdvances(s, next)
    ensures CalledOk(next, id)
  {
    hide DispatchAnchored, JobsEvolve;
    BegunStays(s.store, next.store, id);
    AnchoredStays(s, next, s.store.jobs[id].digest);
  }

  lemma ToldStays(s: Shared, next: Shared, h: Handoff)
    requires ToldOk(s, h) && SharedAdvances(s, next)
    ensures ToldOk(next, h)
  {
    hide Acked, JobsEvolve;
    BegunStays(s.store, next.store, h.jobId);
    AckedStays(s, next, ResultAccepted, Sha256(h));
  }

  /** The shared part moves on; threads stay where they are. */
  lemma SharedMoves(w: World, s: System, next: Shared, used: set<Text>)
    requires SystemInv(w, s) && SharedInv(w, next, used) && SharedAdvances(s.shared, next) && GrantsApart(next.store)
    requires Earned(next.store, s.calls)
    ensures SystemInv(w, s.(shared := next, used := used))
  {
    hide SharedInv, GrantsApart, TaskOk, CalledOk, ToldOk, SharedAdvances, Earned;
    var t := s.(shared := next, used := used);
    forall k | k in t.tasks
      ensures TaskOk(next, t.tasks[k])
    {
      TaskStays(s.shared, next, t.tasks[k]);
    }
    forall id | id in t.calls
      ensures CalledOk(next, id)
    {
      CalledStays(s.shared, next, id);
    }
    forall h | h in t.told
      ensures ToldOk(next, h)
    {
      ToldStays(s.shared, next, h);
    }
    assert forall k, id :: HoldsCall(t, k, id) == HoldsCall(s, k, id);
  }

  // ---------------------------------------------------------------- threads come, go and advance

  lemma ThreadsLeave(w: World, s: System, tasks: map<nat, Task>)
    requires SystemInv(w, s) && forall k :: k in tasks ==> k in s.tasks && tasks[k] == s.tasks[k]
    ensures SystemInv(w, s.(tasks := tasks))
  {
    hide SharedInv, GrantsApart, TaskOk, CalledOk, ToldOk, Earned;
    var t := s.(tasks := tasks);
    assert forall k, id :: HoldsCall(t, k, id) ==> HoldsCall(s, k, id);
  }

  lemma ThreadMoves(w: World, s: System, k: nat, t: Task)
    requires SystemInv(w, s) && TaskOk(s.shared, t)
    requires t.stage.Ran? ==> t.h.jobId in s.calls
    requires t.stage.Dispatched? ==> t.h.jobId !in s.calls && forall l :: l in s.tasks ==> !HoldsCall(s, l, t.h.jobId)
    ensures SystemInv(w, s.(tasks := s.tasks[k := t]))
  {
    hide SharedInv, GrantsApart, TaskOk, CalledOk, ToldOk, Earned;
    var next := s.(tasks := s.tasks[k := t]);
    assert forall l, id :: l != k ==> HoldsCall(next, l, id) == HoldsCall(s, l, id);
  }

  // ---------------------------------------------------------------- what the transactions write

  predicate LastNames(st: Store, action: Action, d: Digest) {
    st.events != [] && Names(st.events[|st.events| - 1], action, d)
  }

  lemma LastAcked(s: Shared, action: Action, d: Digest)
    requires LastNames(s.store, action, d) && s.anchor.count == |s.store.events|
    ensures Acked(s, action, d)
  {
  }

  lemma AdmitDirectReserves(w: World, st: Store, subject: Text, h: Handoff, now: int)
    requires AdmitDirect(w, st, subject, h, now).Some?
    ensures var next := AdmitDirect(w, st, subject, h, now).value;
            RowFor(next, subject, h, now) && LastNames(next, HandoffAdmitted, Sha256(h)) && !h.pending
  {
    hide Admissible, JobIdOk;
  }

  lemma AdmitApprovedReserves(w: World, st: Store, subject: Text, h: Handoff, token: nat, now: int)
    requires AdmitApproved(w, st, subject, h, token, now).Some?
    ensures var next := AdmitApproved(w, st, subject, h, token, now).value;
            RowFor(next, subject, h, now) && LastNames(next, HandoffAdmitted, Sha256(h)) && h.pending && token in next.tokens
  {
    hide Admissible, RecordValid, JobIdOk;
  }

  /** Only the caller that moves the row out of RESERVED goes on to the worker. */
  lemma CommitBegins(w: World, st: Store, subject: Text, h: Handoff, at: int)
    requires CommitExecution(w, st, subject, h, at).Some? && RowFor(st, subject, h, at)
    ensures var next := CommitExecution(w, st, subject, h, at).value;
            && RowFor(next, subject, h, at) && Begun(next, h.jobId) && !Begun(st, h.jobId)
            && LastNames(next, ExecutionDispatched, Sha256(h))
  {
  }

  lemma AcceptCompletes(w: World, st: Store, subject: Text, h: Handoff, result: Result, approval: Option<RecordHash>, now: int)
    requires AcceptResult(w, st, subject, h, result, approval, now).Some?
    ensures var next := AcceptResult(w, st, subject, h, result, approval, now).value;
            Done(next, h) && LastNames(next, ResultAccepted, Sha256(h))
  {
    hide Admissible, Accepts;
  }

  /** Only an acceptance completes a job, and only its own. */
  predicate Completes(txn: Txn, id: Text) { txn.AcceptTxn? && txn.h.jobId == id }

  lemma OnlyAcceptanceCompletes(w: World, st: Store, txn: Txn, id: Text)
    requires Apply(w, st, txn).Some?
    ensures var next := Apply(w, st, txn).value;
            id in next.jobs && next.jobs[id].state == Completed ==>
              (id in st.jobs && st.jobs[id].state == Completed) || Completes(txn, id)
  {
    hide Admissible, RecordValid, JobIdOk, LivePending, LiveGrant, Accepts, Waits, Redeems;
  }

  lemma ApplyEarned(w: World, st: Store, txn: Txn, calls: multiset<Text>)
    requires Apply(w, st, txn).Some? && Earned(st, calls) && (txn.AcceptTxn? ==> txn.h.jobId in calls)
    ensures Earned(Apply(w, st, txn).value, calls)
  {
    hide Apply;
    var next := Apply(w, st, txn).value;
    forall id | id in next.jobs && next.jobs[id].state == Completed
      ensures id in calls
    {
      OnlyAcceptanceCompletes(w, st, txn, id);
    }
  }

  // ---------------------------------------------------------------- one step

  lemma MutationKeeps(w: World, s: System, i: nat, txn: Txn, acks: Acks)
    requires WorldValid(w) && SystemInv(w, s) && i in s.shared.instances && TxnReady(s.shared.store, s.used, txn)
    requires txn.AcceptTxn? ==> txn.h.jobId in s.calls
    ensures var (next, acked) := Atomic(w, s.shared, i, txn, acks.recover, acks.ack);
            && SystemInv(w, s.(shared := next, used := if Grew(s.shared, next) then UsedAfter(s.used, txn) else s.used))
            && SharedAdvances(s.shared, next)
            && (acked ==> Apply(w, s.shared.store, txn) == Some(next.store) && next.anchor.count == |next.store.events|)
  {
    var (next, acked) := Atomic(w, s.shared, i, txn, acks.recover, acks.ack);
    AtomicFacts(w, s, i, txn, acks);
    SharedMoves(w, s, next, if Grew(s.shared, next) then UsedAfter(s.used, txn) else s.used);
  }

  lemma AtomicFacts(w: World, s: System, i: nat, txn: Txn, acks: Acks)
    requires WorldValid(w) && SystemInv(w, s) && i in s.shared.instances && TxnReady(s.shared.store, s.used, txn)
    requires txn.AcceptTxn? ==> txn.h.jobId in s.calls
    ensures var (next, acked) := Atomic(w, s.shared, i, txn, acks.recover, acks.ack);
            && SharedInv(w, next, if Grew(s.shared, next) then UsedAfter(s.used, txn) else s.used)
            && SharedAdvances(s.shared, next) && GrantsApart(next.store) && Earned(next.store, s.calls)
            && (acked ==> Apply(w, s.shared.store, txn) == Some(next.store) && next.anchor.count == |next.store.events|)
  {
    hide SharedInv, GrantsApart, SharedAdvances, Apply, TaskOk, TxnReady, WorldValid, Atomic, Earned;
    AtomicKeeps(w, s.shared, s.used, i, txn, acks.recover, acks.ack);
    var (next, _) := Atomic(w, s.shared, i, txn, acks.recover, acks.ack);
    if Grew(s.shared, next) {
      ApplyKeepsApart(w, s.shared.store, txn);
      ApplyEarned(w, s.shared.store, txn, s.calls);
    }
  }
}
