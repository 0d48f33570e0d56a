/** What every step of the service keeps, whatever the interleaving, the clocks and the losses. */
module ServiceInvariant {
  import opened Prelude
  import opened Handoffs
  import opened Results
  import opened AuditChain
  import opened Ledger
  import opened Reconciliation
  import opened LedgerInvariant
  import opened LedgerSteps
  import opened Reopening
  import opened Service

  // ---------------------------------------------------------------- the shared part

  /** The anchor stands for a prefix of the stored log. */
  predicate AnchorHolds(w: World, s: Shared) {
    && 0 <= s.anchor.count <= |s.store.events|
    && s.anchor == CommitmentTo(w.scheme, s.store.events[..s.anchor.count])
  }

  ghost predicate SharedInv(w: World, s: Shared, used: set<Text>) {
    Inv(w, s.store, used) && |s.store.events| <= MAX_COUNT && AnchorHolds(w, s)
  }

  ghost predicate SharedAdvances(s: Shared, next: Shared) {
    Advances(s.store, next.store) && s.anchor.count <= next.anchor.count
  }

  /** The log is taken whole or not at all; an acknowledgement means it was taken. */
  lemma AnchoredTakes(w: World, anchor: Commitment, events: seq<Event>, ack: Ack)
    requires WorldValid(w) && 0 <= anchor.count <= |events| <= MAX_COUNT
    requires anchor == CommitmentTo(w.scheme, events[..anchor.count])
    ensures Anchored(w, anchor, events, ack) ==
            if ack == Undelivered then (anchor, false) else (CommitmentTo(w.scheme, events), ack == Answered)
  {
    SnapshotTaken(w.scheme, w.sign, events[..anchor.count], events);
  }

  lemma AnchorAt(w: World, events: seq<Event>)
    ensures CommitmentTo(w.scheme, events).count == |events|
    ensures CommitmentTo(w.scheme, events) == CommitmentTo(w.scheme, events[..|events|])
  {
    assert events[..|events|] == events;
  }

  /** What a transaction needs from the thread that runs it. */
  predicate TxnReady(st: Store, used: set<Text>, txn: Txn) {
    match txn
    case IssueTxn(_, h) => h.jobId !in used
    case AddTxn(_, h, _) => h.jobId !in used && JobIdOk(h.jobId)
    case AdmitDirectTxn(subject, h, _) => HasIssuance(st.events, Sha256(h), subject)
    case CommitTxn(subject, h, now) => RowFor(st, subject, h, now)
    case AcceptTxn(subject, h, result, _, now) => RowFor(st, subject, h, result.producedAt)
    case _ => true
  }

  /** The row reserved for this handoff at this time. */
  predicate RowFor(st: Store, subject: Text, h: Handoff, at: int) {
    && h.jobId in st.jobs
    && var r := st.jobs[h.jobId];
    && r.digest == Sha256(h) && r.subject == subject && r.reservedAt == Some(at)
    && r.state in {Reserved, ExecutionCommitted, Completed}
  }

  function UsedAfter(used: set<Text>, txn: Txn): set<Text> {
    match txn
    case IssueTxn(_, h) => used + {h.jobId}
    case AddTxn(_, h, _) => used + {h.jobId}
    case _ => used
  }

  lemma ApplyKeeps(w: World, st: Store, used: set<Text>, txn: Txn)
    requires Inv(w, st, used) && TxnReady(st, used, txn) && Apply(w, st, txn).Some?
    ensures Inv(w, Apply(w, st, txn).value, UsedAfter(used, txn)) && Advances(st, Apply(w, st, txn).value)
  {
    hide Inv, IssueDirect, Note, AddPending, GrantApproval;
    hide AdmitDirect, AdmitApproved, CommitExecution, AcceptResult, RefusePending;
    match txn
    case IssueTxn(subject, h) => IssueDirectKeeps(w, st, used, subject, h);
    case NoteTxn(subject, h, result, code, at) => NoteKeeps(w, st, used, subject, h, result, code, at);
    case AddTxn(subject, h, now) => AddPendingKeeps(w, st, used, subject, h, now);
    case GrantTxn(id, approver, subject, token, ttl, now) =>
      GrantApprovalKeeps(w, st, used, id, approver, subject, token, ttl, now);
    case AdmitDirectTxn(subject, h, now) => AdmitDirectKeeps(w, st, used, subject, h, now);
    case AdmitApprovedTxn(subject, h, token, now) => AdmitApprovedKeeps(w, st, used, subject, h, token, now);
    case CommitTxn(subject, h, now) =>
      CommitReady(w, st, subject, h, now);
      CommitExecutionKeeps(w, st, used, subject, h, now);
    case AcceptTxn(subject, h, result, approval, now) =>
      AcceptReady(w, st, subject, h, result, approval, now);
      AcceptResultKeeps(w, st, used, subject, h, result, approval, now);
    case RefuseTxn(id, subject, expired, now) => RefusePendingKeeps(w, st, used, id, subject, expired, now);
  }

  lemma CommitReady(w: World, st: Store, subject: Text, h: Handoff, now: int)
    requires CommitExecution(w, st, subject, h, now).Some? && RowFor(st, subject, h, now)
    ensures st.jobs[h.jobId].reservedAt == Some(now)
  {
  }

  /** A result is dated when its job was reserved, and never accepted before. */
  lemma AcceptReady(w: World, st: Store, subject: Text, h: Handoff, result: Result, approval: Option<RecordHash>, now: int)
    requires AcceptResult(w, st, subject, h, result, approval, now).Some? && RowFor(st, subject, h, result.producedAt)
    ensures st.jobs[h.jobId].subject == subject && st.jobs[h.jobId].reservedAt.Some?
    ensures st.jobs[h.jobId].reservedAt.value <= now
  {
  }

  /** One event more, in time and with room for it. */
  predicate LoggedOne(w: World, events: seq<Event>, next: seq<Event>) {
    && |next| == |events| + 1 && next[..|events|] == events
    && InTime(next[|events|].occurredAt) && w.fits(next)
  }

  lemma ApplyLogs(w: World, st: Store, txn: Txn)
    requires Apply(w, st, txn).Some?
    ensures LoggedOne(w, st.events, Apply(w, st, txn).value.events)
  {
    hide Admissible, JobIdOk, Trusted, RecordValid, Waits, Redeems, LivePending, LiveGrant, Accepts;
    var next := Apply(w, st, txn).value.events;
    assert next == st.events + [next[|st.events|]];
  }

  /** Every transaction appends exactly one event, within what can still be anchored. */
  lemma ApplyAppendsOne(w: World, st: Store, txn: Txn)
    requires WorldValid(w) && Apply(w, st, txn).Some?
    ensures var next := Apply(w, st, txn).value;
            |next.events| == |st.events| + 1 <= MAX_COUNT && st.events <= next.events
  {
    hide HashesAreDigests, SignsFor, PolicyValid, Apply;
    ApplyLogs(w, st, txn);
  }

  lemma CommitmentOfPrefix(w: World, s: Shared, st: Store)
    requires AnchorHolds(w, s) && s.store.events <= st.events
    ensures AnchorHolds(w, s.(store := st))
  {
    assert st.events[..s.anchor.count] == s.store.events[..s.anchor.count];
  }

  /** One anchored mutation, wherever it stops. */
  lemma AtomicKeeps(w: World, s: Shared, used: set<Text>, i: nat, txn: Txn, recover: Ack, ack: Ack)
    requires WorldValid(w) && SharedInv(w, s, used) && i in s.instances && TxnReady(s.store, used, txn)
    ensures var (next, acked) := Atomic(w, s, i, txn, recover, ack);
            && SharedInv(w, next, if Grew(s, next) then UsedAfter(used, txn) else used)
            && SharedAdvances(s, next)
            && (Grew(s, next) ==> Apply(w, s.store, txn) == Some(next.store))
            && (!Grew(s, next) ==> next.store == s.store)
            && (acked ==> Grew(s, next) && next.anchor.count == |next.store.events|)
  {
    hide Inv, WorldValid, Apply, CommitmentTo, Anchored, TxnReady;
    AnchoredTakes(w, s.anchor, s.store.events, recover);
    AnchorAt(w, s.store.events);
    StoreStays(s.store);
    var (a, ready) := if s.instances[i] then Anchored(w, s.anchor, s.store.events, recover) else (s.anchor, true);
    var mid := s.(anchor := a);
    assert AnchorHolds(w, mid);
    if ready && Apply(w, s.store, txn).Some? {
      var st := Apply(w, s.store, txn).value;
      ApplyKeeps(w, s.store, used, txn);
      ApplyAppendsOne(w, s.store, txn);
      CommitmentOfPrefix(w, mid, st);
      AnchoredTakes(w, a, st.events, ack);
      AnchorAt(w, st.events);
    }
  }

  lemma StoreStays(st: Store)
    ensures Advances(st, st)
  {
  }

  lemma HeadKeeps(w: World, s: Shared, used: set<Text>, i: nat, ack: Ack)
    requires WorldValid(w) && SharedInv(w, s, used) && i in s.instances
    ensures SharedInv(w, Head(w, s, i, ack).0, used) && SharedAdvances(s, Head(w, s, i, ack).0)
  {
    hide Inv, WorldValid, CommitmentTo, Anchored;
    AnchoredTakes(w, s.anchor, s.store.events, ack);
    AnchorAt(w, s.store.events);
    StoreStays(s.store);
  }

  lemma LaunchedKeeps(w: World, s: Shared, used: set<Text>, i: nat, start: Ack)
    requires WorldValid(w) && SharedInv(w, s, used)
    ensures SharedInv(w, Launched(w, s, i, start), used) && SharedAdvances(s, Launched(w, s, i, start))
    ensures i !in s.instances && NoLateJob(s.store.jobs) && start == Answered ==>
              i in Launched(w, s, i, start).instances
  {
    hide Inv, CommitmentTo, Anchored, Reconciles, Opens, Serves, NoLateJob;
    AnchoredTakes(w, s.anchor, s.store.events, start);
    AnchorAt(w, s.store.events);
    StoreStays(s.store);
    ReconcilesExactly(w, s.store, used);
  }

  /** A commit of an older snapshot that arrives late changes nothing it should not. */
  lemma LateKeeps(w: World, s: Shared, used: set<Text>, n: nat)
    requires WorldValid(w) && SharedInv(w, s, used) && n <= |s.store.events|
    ensures var next := s.(anchor := Anchored(w, s.anchor, s.store.events[..n], AnswerLost).0);
            SharedInv(w, next, used) && SharedAdvances(s, next)
  {
    hide Inv, Verified, Continues;
    var c := s.anchor.count;
    StoreStays(s.store);
    SnapshotTaken(w.scheme, w.sign, s.store.events[..c], s.store.events[..n]);
  }
}
