/** How far the anchor can fall behind the stored log: by no more events than instances were ever live
    at once, and by that many if each of them loses a commit. */
module ServiceLag {
  import opened Prelude
  import opened Handoffs
  import opened AuditChain
  import opened Ledger
  import opened Reconciliation
  import opened LedgerInvariant
  import opened Reopening
  import opened OneLiveGrant
  import opened Service
  import opened ServiceInvariant
  import opened ServiceSafety
  import opened ServiceRuns

  // ---------------------------------------------------------------- what is counted

  predicate CaughtUp(s: Shared) { s.anchor.count == |s.store.events| }

  predicate Few(s: Shared, n: nat) { |s.instances.Keys| <= n }

  /** Never more than `n` instances live at once: crashes and restarts, but no further writer. */
  ghost predicate AtMost(w: World, moves: seq<Move>, n: nat) {
    forall k :: 0 <= k <= |moves| ==> Few(Run(w, moves[..k]).shared, n)
  }

  /** The live instances that owe no commit. */
  function Clear(s: Shared): set<nat> { set i | i in s.instances && !s.instances[i] }

  /** Every stored event that is not anchored uses up one of `n`, and so does every instance that could
      still add one. */
  predicate LagsWithin(s: Shared, n: nat) { |s.store.events| + |Clear(s)| <= s.anchor.count + n }

  lemma ClearIsSome(s: Shared)
    ensures Clear(s) <= s.instances.Keys && |Clear(s)| <= |s.instances.Keys|
  {
    SubsetIsFewer(Clear(s), s.instances.Keys);
  }

  /** How one instance changes the count. */
  lemma ClearAfter(s: Shared, i: nat, owes: bool)
    requires i in s.instances
    ensures var next := s.(instances := s.instances[i := owes]);
            && next.instances.Keys == s.instances.Keys
            && Clear(next) == (if owes then Clear(s) - {i} else Clear(s) + {i})
            && (owes ==> |Clear(next)| < |s.instances.Keys|)
            && (owes && !s.instances[i] ==> |Clear(next)| == |Clear(s)| - 1)
            && (owes ==> |Clear(next)| <= |Clear(s)|)
  {
    var next := s.(instances := s.instances[i := owes]);
    assert next.instances.Keys == s.instances.Keys;
    assert Clear(next) == (if owes then Clear(s) - {i} else Clear(s) + {i});
    SubsetIsFewer(Clear(next) - {i}, s.instances.Keys - {i});
    if owes {
      SubsetIsFewer(Clear(next), Clear(s));
    }
  }

  lemma ClearOnlyInstances(s: Shared, t: Shared)
    requires s.instances == t.instances
    ensures Clear(s) == Clear(t)
  {
  }

  // ---------------------------------------------------------------- one anchored mutation

  /** Where one anchored mutation leaves the anchor and the instance that made it. */
  lemma AtomicOutcome(w: World, s: Shared, used: set<Text>, i: nat, txn: Txn, recover: Ack, ack: Ack)
    requires WorldValid(w) && SharedInv(w, s, used) && i in s.instances && TxnReady(s.store, used, txn)
    ensures var (next, acked) := Atomic(w, s, i, txn, recover, ack);
            if Grew(s, next) then
              && (s.instances[i] ==> recover == Answered)
              && next.anchor.count == (if ack != Undelivered then |next.store.events|
                                       else if s.instances[i] then |s.store.events| else s.anchor.count)
              && |next.store.events| == |s.store.events| + 1
              && next.instances == s.instances[i := !acked] && (acked <==> ack == Answered)
            else
              && next.store == s.store && s.anchor.count <= next.anchor.count
              && (next.instances == s.instances
                  || (next.instances == s.instances[i := false] && (s.instances[i] ==> CaughtUp(next))))
  {
    hide Inv, WorldValid, Apply, CommitmentTo, Anchored, TxnReady;
    AtomicKeeps(w, s, used, i, txn, recover, ack);
    AnchoredTakes(w, s.anchor, s.store.events, recover);
    AnchorAt(w, s.store.events);
    if Apply(w, s.store, txn).Some? && (s.instances[i] ==> recover == Answered) {
      var st := Apply(w, s.store, txn).value;
      ApplyAppendsOne(w, s.store, txn);
      var a := if s.instances[i] then CommitmentTo(w.scheme, s.store.events) else s.anchor;
      CommitmentOfPrefix(w, s.(anchor := a), st);
      AnchoredTakes(w, a, st.events, ack);
      AnchorAt(w, st.events);
    }
  }

  lemma AtomicLags(w: World, s: Shared, used: set<Text>, i: nat, txn: Txn, recover: Ack, ack: Ack, n: nat)
    requires WorldValid(w) && SharedInv(w, s, used) && i in s.instances && TxnReady(s.store, used, txn)
    requires Few(s, n) && LagsWithin(s, n)
    ensures LagsWithin(Atomic(w, s, i, txn, recover, ack).0, n)
  {
    hide SharedInv, WorldValid, TxnReady, Atomic, Clear;
    AtomicOutcome(w, s, used, i, txn, recover, ack);
    var (next, acked) := Atomic(w, s, i, txn, recover, ack);
    ClearAfter(s, i, true);
    ClearAfter(s, i, false);
    ClearIsSome(next);
    ClearOnlyInstances(next, s.(instances := next.instances));
    ClearOnlyInstances(s, s.(instances := s.instances));
    if i in s.instances && !s.instances[i] {
      assert s.instances[i := false] == s.instances;
    }
  }

  lemma HeadLags(w: World, s: Shared, used: set<Text>, i: nat, ack: Ack, n: nat)
    requires WorldValid(w) && SharedInv(w, s, used) && i in s.instances && Few(s, n) && LagsWithin(s, n)
    ensures LagsWithin(Head(w, s, i, ack).0, n)
  {
    hide Inv, WorldValid, CommitmentTo, Anchored, Clear;
    AnchoredTakes(w, s.anchor, s.store.events, ack);
    AnchorAt(w, s.store.events);
    var next := Head(w, s, i, ack).0;
    ClearAfter(s, i, true);
    ClearIsSome(next);
    ClearAfter(s, i, false);
    ClearOnlyInstances(next, s.(instances := next.instances));
  }

  lemma LaunchLags(w: World, s: Shared, used: set<Text>, i: nat, start: Ack, n: nat)
    requires WorldValid(w) && SharedInv(w, s, used) && LagsWithin(s, n) && Few(Launched(w, s, i, start), n)
    ensures LagsWithin(Launched(w, s, i, start), n)
  {
    hide Inv, WorldValid, CommitmentTo, Anchored, Opens, Serves, Clear;
    AnchoredTakes(w, s.anchor, s.store.events, start);
    AnchorAt(w, s.store.events);
    var next := Launched(w, s, i, start);
    ClearIsSome(next);
    if next.instances == s.instances {
      ClearOnlyInstances(s, next);
    }
  }

  lemma CrashLags(s: Shared, i: nat, n: nat)
    requires LagsWithin(s, n)
    ensures LagsWithin(s.(instances := s.instances - {i}), n)
  {
    SubsetIsFewer(Clear(s.(instances := s.instances - {i})), Clear(s));
  }

  lemma LateLags(w: World, s: Shared, used: set<Text>, late: nat, n: nat)
    requires WorldValid(w) && SharedInv(w, s, used) && late <= |s.store.events| && LagsWithin(s, n)
    ensures LagsWithin(s.(anchor := Anchored(w, s.anchor, s.store.events[..late], AnswerLost).0), n)
  {
    hide SharedInv, WorldValid, Anchored, Clear;
    LateKeeps(w, s, used, late);
    ClearOnlyInstances(s, s.(anchor := Anchored(w, s.anchor, s.store.events[..late], AnswerLost).0));
  }

  // ---------------------------------------------------------------- every run

  lemma TaskLags(w: World, s: System, move: Move, n: nat)
    requires WorldValid(w) && SystemInv(w, s) && Few(s.shared, n) && LagsWithin(s.shared, n)
    requires IsTaskMove(move)
    ensures LagsWithin(StepTask(w, s, move).shared, n)
  {
    hide WorldValid, Atomic, SignedFor, LagsWithin, Few, Inv, CallsOk, CallsHeldOnce, WorkDone, GrantsApart, ToldOk, Acked;
    hide HasIssuance, RowFor, Begun;
    var k := move.task;
    if Driven(s, k) {
      var t := s.tasks[k];
      assert TaskOk(s.shared, t);
      match (move, t.stage)
      case (Admit(_, now, acks), Routed) =>
        AtomicLags(w, s.shared, s.used, t.instance, AdmitDirectTxn(t.subject, t.h, now), acks.recover, acks.ack, n);
      case (Admit(_, now, acks), Presenting(token)) =>
        AtomicLags(w, s.shared, s.used, t.instance, AdmitApprovedTxn(t.subject, t.h, token, now), acks.recover, acks.ack, n);
      case (Dispatch(_, acks), Admitted(at, _)) =>
        AtomicLags(w, s.shared, s.used, t.instance, CommitTxn(t.subject, t.h, at), acks.recover, acks.ack, n);
      case (Accept(_, now, acks), Ran(_, approval, result)) =>
        AtomicLags(w, s.shared, s.used, t.instance, AcceptTxn(t.subject, t.h, result, approval, now), acks.recover, acks.ack, n);
      case _ =>
    }
  }

  lemma RequestLags(w: World, s: System, move: Move, n: nat)
    requires WorldValid(w) && SystemInv(w, s) && Few(s.shared, n) && LagsWithin(s.shared, n)
    requires IsRequest(move)
    requires move.i in s.shared.instances
    ensures LagsWithin(StepRequest(w, s, move).shared, n)
  {
    hide WorldValid, Atomic, Head, LagsWithin, Few, Inv;
    hide CallsOk, CallsHeldOnce, WorkDone, GrantsApart, ToldOk, TaskOk, JobIdOk;
    match move
    case Submit(i, k, subject, jobId, text, at, acks) =>
      var issued := Issue(w, s, subject, jobId, text, at);
      if issued.Some? {
        AtomicLags(w, s.shared, s.used, i, IssueTxn(subject, issued.value), acks.recover, acks.ack, n);
      }
    case SubmitPending(i, subject, jobId, text, at, now, acks) =>
      var issued := Issue(w, s, subject, jobId, text, at);
      if issued.Some? {
        AtomicLags(w, s.shared, s.used, i, AddTxn(subject, issued.value, now), acks.recover, acks.ack, n);
      }
    case Approve(i, jobId, approver, subject, token, ttl, now, acks) =>
      AtomicLags(w, s.shared, s.used, i, GrantTxn(jobId, approver, subject, token, ttl, now), acks.recover, acks.ack, n);
    case Present(_, _, _, _, _) =>
    case Refuse(i, jobId, subject, expired, now, acks) =>
      AtomicLags(w, s.shared, s.used, i, RefuseTxn(jobId, subject, expired, now), acks.recover, acks.ack, n);
    case Reject(i, subject, h, ofResult, code, at, acks) =>
      AtomicLags(w, s.shared, s.used, i, NoteTxn(subject, h, ofResult, code, at), acks.recover, acks.ack, n);
    case AskHead(i, ack) => HeadLags(w, s.shared, s.used, i, ack, n);
  }

  lemma StepLags(w: World, s: System, move: Move, n: nat)
    requires WorldValid(w) && SystemInv(w, s) && Few(s.shared, n) && LagsWithin(s.shared, n)
    requires Few(Step(w, s, move).shared, n)
    ensures LagsWithin(Step(w, s, move).shared, n)
  {
    hide WorldValid, StepTask, StepRequest, Launched, Anchored, Inv;
    hide CallsOk, CallsHeldOnce, WorkDone, GrantsApart, ToldOk, TaskOk;
    hide CommitmentTo, LagsWithin, Few;
    match move
    case Launch(i, start) => LaunchLags(w, s.shared, s.used, i, start, n);
    case Crash(i) => CrashLags(s.shared, i, n);
    case LateDelivery(late) =>
      if late <= |s.shared.store.events| {
        LateLags(w, s.shared, s.used, late, n);
      }
    case Admit(_, _, _) => TaskLags(w, s, move, n);
    case Dispatch(_, _) => TaskLags(w, s, move, n);
    case CallWorker(_, _) => TaskLags(w, s, move, n);
    case Accept(_, _, _) => TaskLags(w, s, move, n);
    case _ =>
      if move.i in s.shared.instances {
        RequestLags(w, s, move, n);
      }
  }

  /** The anchor lags the stored log by no more events than instances were ever live at once, through
      lost acknowledgements, crashes and restarts; and each instance that owes nothing is one less. */
  lemma {:induction false} LagIsBounded(w: World, moves: seq<Move>, n: nat)
    requires WorldValid(w) && AtMost(w, moves, n)
    ensures LagsWithin(Run(w, moves).shared, n)
  {
    hide WorldValid, Step, Few, SystemInv, LagsWithin;
    if moves == [] {
      NoLag(n);
    } else {
      var k := |moves| - 1;
      forall m | 0 <= m <= k
        ensures Few(Run(w, moves[..k][..m]).shared, n)
      {
        assert moves[..k][..m] == moves[..m];
      }
      LagIsBounded(w, moves[..k], n);
      RunKeeps(w, moves[..k]);
      assert moves[..k][..k] == moves[..k] && moves[..|moves|] == moves;
      StepLags(w, Run(w, moves[..k]), moves[k], n);
    }
  }

  lemma NoLag(n: nat)
    ensures LagsWithin(START.shared, n)
  {
    assert Clear(START.shared) == {};
  }

  /** At most one stored event is not anchored, and an instance that owes nothing is caught up. */
  predicate LagsByOne(s: Shared) {
    && |s.store.events| <= s.anchor.count + 1
    && forall i :: i in s.instances ==> s.instances[i] || CaughtUp(s)
  }

  /** With one instance at a time. */
  lemma OneInstanceLagsByOne(w: World, moves: seq<Move>)
    requires WorldValid(w) && AtMost(w, moves, 1)
    ensures LagsByOne(Run(w, moves).shared)
  {
    hide WorldValid, Run, Inv, GrantsApart, TaskOk, CallsOk, CallsHeldOnce, WorkDone, ToldOk, CommitmentTo;
    LagIsBounded(w, moves, 1);
    RunKeeps(w, moves);
    var s := Run(w, moves).shared;
    assert AnchorHolds(w, s);
    forall i | i in s.instances
      ensures s.instances[i] || CaughtUp(s)
    {
      if !s.instances[i] {
        SubsetIsFewer({i}, Clear(s));
      }
    }
  }

  /** So nothing is appended while an earlier event is not anchored. */
  lemma NothingAppendedUnanchored(w: World, moves: seq<Move>, move: Move)
    requires WorldValid(w) && AtMost(w, moves + [move], 1)
    requires Grew(Run(w, moves).shared, Run(w, moves + [move]).shared)
    ensures |Run(w, moves).shared.store.events| <= Run(w, moves + [move]).shared.anchor.count
  {
    hide WorldValid, Run, AtMost;
    OneInstanceLagsByOne(w, moves + [move]);
  }

  /** An instance appends only when its own last commit was acknowledged, or after recovering. */
  lemma AppendsOnlyAcknowledged(w: World, s: Shared, used: set<Text>, i: nat, txn: Txn, recover: Ack, ack: Ack)
    requires WorldValid(w) && SharedInv(w, s, used) && i in s.instances && TxnReady(s.store, used, txn)
    ensures var (next, acked) := Atomic(w, s, i, txn, recover, ack);
            Grew(s, next) ==>
              && (!s.instances[i] || recover == Answered)
              && (s.instances[i] ==> |s.store.events| <= next.anchor.count)
              && i in next.instances && (next.instances[i] <==> !acked)
  {
    hide SharedInv, WorldValid, TxnReady, Atomic;
    AtomicOutcome(w, s, used, i, txn, recover, ack);
  }

  /** Two instances that both owe nothing can leave two events unanchored: the second does not
      know of the first one's lost commit. */
  lemma TwoInstancesLagByTwo(w: World, s: Shared, i: nat, j: nat, first: Txn, second: Txn)
    requires WorldValid(w) && i != j && i in s.instances && j in s.instances
    requires !s.instances[i] && !s.instances[j] && CaughtUp(s)
    requires Apply(w, s.store, first).Some? && Apply(w, Apply(w, s.store, first).value, second).Some?
    ensures var mid := Atomic(w, s, i, first, Answered, Undelivered).0;
            var next := Atomic(w, mid, j, second, Answered, Undelivered).0;
            |next.store.events| == next.anchor.count + 2
  {
    hide WorldValid, Apply;
    ApplyAppendsOne(w, s.store, first);
    ApplyAppendsOne(w, Apply(w, s.store, first).value, second);
  }

  // ---------------------------------------------------------------- the bound is attained

  /** `n` instances start, and then each in turn records one refusal whose commit is never delivered. */
  function EachLoses(n: nat, k: nat, subject: Text, h: Handoff, at: int): seq<Move> {
    if k > 0 then EachLoses(n, k - 1, subject, h, at) + [Reject(k - 1, subject, h, false, 0, at, Acks(Answered, Undelivered))]
    else if n > 0 then EachLoses(n - 1, 0, subject, h, at) + [Launch(n - 1, Answered)]
    else []
  }

  /** `n` instances are up, the first `k` of which owe a commit, and nothing is anchored. */
  ghost predicate Behind(s: Shared, n: nat, k: nat) {
    && s.anchor == NothingCommitted() && |s.store.events| == k && AllInTime(s.store.events)
    && (forall i: nat :: i in s.instances <==> i < n)
    && (forall i :: i in s.instances ==> (s.instances[i] <==> i < k))
    && s.store.jobs == map[]
  }

  lemma {:induction false} FirstNumbers(keys: set<nat>, n: nat)
    requires forall i: nat :: i in keys <==> i < n
    ensures |keys| == n
  {
    if n == 0 {
      assert keys == {};
    } else {
      FirstNumbers(keys - {n - 1}, n - 1);
    }
  }

  lemma StartsOneMore(w: World, s: System, n: nat)
    requires WorldValid(w) && SystemInv(w, s) && Behind(s.shared, n, 0)
    ensures Behind(Step(w, s, Launch(n, Answered)).shared, n + 1, 0)
  {
    hide WorldValid, Inv, GrantsApart, TaskOk, CallsOk, CallsHeldOnce, WorkDone, ToldOk, CommitmentTo, Anchored, Opens, Serves;
    AnchoredTakes(w, s.shared.anchor, s.shared.store.events, Answered);
    PolicyOf(w);
    ReconcilesExactly(w, s.shared.store, s.used);
    NothingIsAnchored(w);
  }

  lemma PolicyOf(w: World)
    requires WorldValid(w)
    ensures PolicyValid(w.policy)
  {
  }

  lemma NothingIsAnchored(w: World)
    ensures CommitmentTo(w.scheme, []) == NothingCommitted()
  {
  }

  lemma RoomMeans(w: World, n: nat, events: seq<Event>)
    requires RoomFor(w, EMPTY_STORE, n) && |events| < n && AllInTime(events)
    ensures forall e: Event :: InTime(e.occurredAt) ==> w.fits(events + [e])
  {
    forall e: Event | InTime(e.occurredAt)
      ensures w.fits(events + [e])
    {
      assert AllInTime(events + [e]) && EMPTY_STORE.events + (events + [e]) == events + [e];
    }
  }

  lemma LosesOneMore(w: World, s: System, n: nat, k: nat, subject: Text, h: Handoff, at: int)
    requires WorldValid(w) && Behind(s.shared, n, k) && k < n && InTime(at) && RoomFor(w, EMPTY_STORE, n)
    ensures Behind(Step(w, s, Reject(k, subject, h, false, 0, at, Acks(Answered, Undelivered))).shared, n, k + 1)
  {
    hide WorldValid, RoomFor, InTime;
    RoomMeans(w, n, s.shared.store.events);
    var e := EventOf(w, h, HandoffRejected, OtherReason(0), at, subject, None, None);
    var next := s.shared.store.events + [e];
    assert AllInTime(next);
    assert Apply(w, s.shared.store, NoteTxn(subject, h, false, 0, at)) == Some(s.shared.store.(events := next));
  }

  lemma AtMostGrows(w: World, moves: seq<Move>, move: Move, n: nat)
    requires AtMost(w, moves, n) && Few(Run(w, moves + [move]).shared, n)
    ensures AtMost(w, moves + [move], n)
  {
    hide Run, Few;
    var all := moves + [move];
    forall k | 0 <= k <= |all|
      ensures Few(Run(w, all[..k]).shared, n)
    {
      if k <= |moves| {
        assert all[..k] == moves[..k];
      } else {
        assert all[..k] == all;
      }
    }
  }

  lemma BehindIsFew(s: Shared, n: nat, k: nat)
    requires Behind(s, n, k)
    ensures Few(s, n)
  {
    FirstNumbers(s.instances.Keys, n);
  }

  lemma AtMostMore(w: World, moves: seq<Move>, n: nat)
    requires AtMost(w, moves, n)
    ensures AtMost(w, moves, n + 1)
  {
    hide Run;
  }

  lemma {:induction false} FallsBehind(w: World, n: nat, k: nat, subject: Text, h: Handoff, at: int)
    requires WorldValid(w) && k <= n && InTime(at) && RoomFor(w, EMPTY_STORE, n)
    ensures Behind(Run(w, EachLoses(n, k, subject, h, at)).shared, n, k) && AtMost(w, EachLoses(n, k, subject, h, at), n)
    decreases n, k
  {
    hide WorldValid, Step, SystemInv, Behind, RoomFor, AtMost;
    var moves := EachLoses(n, k, subject, h, at);
    if n == 0 {
      NobodyStarted(w);
    } else {
      var before := if k > 0 then EachLoses(n, k - 1, subject, h, at) else EachLoses(n - 1, 0, subject, h, at);
      var move := moves[|moves| - 1];
      assert moves == before + [move] && moves[..|moves| - 1] == before;
      var s := Run(w, before);
      if k > 0 {
        FallsBehind(w, n, k - 1, subject, h, at);
        LosesOneMore(w, s, n, k - 1, subject, h, at);
      } else {
        LessRoom(w, n);
        FallsBehind(w, n - 1, 0, subject, h, at);
        RunKeeps(w, before);
        StartsOneMore(w, s, n - 1);
        AtMostMore(w, before, n - 1);
      }
      BehindIsFew(Run(w, moves).shared, n, k);
      AtMostGrows(w, before, move, n);
    }
  }

  lemma LessRoom(w: World, n: nat)
    requires RoomFor(w, EMPTY_STORE, n) && n > 0
    ensures RoomFor(w, EMPTY_STORE, n - 1)
  {
  }

  lemma NobodyStarted(w: World)
    ensures Behind(Run(w, []).shared, 0, 0) && AtMost(w, [], 0)
  {
  }

  /** And for every `n` a run of `n` instances does fall behind by `n` events. */
  lemma LagIsAttained(w: World, n: nat, subject: Text, h: Handoff, at: int)
    requires WorldValid(w) && InTime(at) && RoomFor(w, EMPTY_STORE, n)
    ensures var moves := EachLoses(n, n, subject, h, at);
            var s := Run(w, moves).shared;
            AtMost(w, moves, n) && |s.store.events| == s.anchor.count + n
  {
    hide WorldValid, Run, AtMost, RoomFor;
    FallsBehind(w, n, n, subject, h, at);
  }
}
