/** The durable stores as they are written and read: one row at a time, inside one transaction
    that commits with its audit event or rolls back whole (geniusnew/database.py,
    geniusnew/audit_store.py, geniusnew/wiring.py). `Ledger.Apply` is what each transaction means. */
module Database {
  import opened Prelude
  import opened Handoffs
  import opened Results
  import opened Ledger
  import opened Service

  /** The tables behind one connection. */
  class Tables {
    const world: World
    var jobs: map<Text, JobRow>
    var pending: map<Text, PendingRow>
    var approvals: map<RecordHash, ApprovalRow>
    var tokens: map<nat, RecordHash>
    var acceptances: map<Digest, AcceptanceRow>
    var events: seq<Event>

    function Contents(): Store
      reads this
    {
      Store(jobs, pending, approvals, tokens, acceptances, events)
    }

    constructor (world: World)
      ensures Contents() == EMPTY_STORE && this.world == world
    {
      this.world := world;
      jobs, pending, approvals, tokens, acceptances, events := map[], map[], map[], map[], map[], [];
    }

    // -------------------------------------------------------------- job ledger

    /** INSERT ... ON CONFLICT DO NOTHING. */
    method Reserve(jobId: Text, subject: Text, digest: Digest, reservedAt: int, expiresAt: int) returns (ok: bool)
      modifies `jobs
      ensures ok <==> jobId !in old(jobs)
      ensures jobs == if ok then old(jobs)[jobId := JobRow(subject, digest, Reserved, reservedAt, Some(reservedAt), reservedAt,
                                                           expiresAt)]
                      else old(jobs)
    {
      if jobId in jobs {
        return false;
      }
      jobs := jobs[jobId := JobRow(subject, digest, Reserved, reservedAt, Some(reservedAt), reservedAt, expiresAt)];
      return true;
    }

    /** What an approval already reserved: the consumed record must be its token's tip and the row's own. */
    method ReserveAdmitted(jobId: Text, subject: Text, digest: Digest, reservedAt: int, expiresAt: int,
                           approval: Option<RecordHash>) returns (ok: bool)
      modifies `jobs
      ensures approval.None? ==> (ok <==> jobId !in old(jobs))
      ensures approval.None? && ok ==>
                jobs == old(jobs)[jobId := JobRow(subject, digest, Reserved, reservedAt, Some(reservedAt), reservedAt, expiresAt)]
      ensures approval.Some? ==> jobs == old(jobs)
      ensures approval.Some? ==>
                (ok <==> && approval.value in approvals && jobId in jobs
                         && var r, j := approvals[approval.value], jobs[jobId];
                         && r.token in tokens && tokens[r.token] == approval.value && r.state == Consumed
                         && j.subject == subject && j.digest == digest && j.expiresAt == expiresAt
                         && j.state == Reserved && j.reservedAt == Some(reservedAt)
                         && r.scope.jobId == jobId && r.scope.digest == digest && r.scope.expiresAt == expiresAt
                         && r.changedAt == reservedAt)
    {
      if approval.None? {
        ok := Reserve(jobId, subject, digest, reservedAt, expiresAt);
        return;
      }
      if approval.value !in approvals || jobId !in jobs {
        return false;
      }
      var record, row := approvals[approval.value], jobs[jobId];
      if record.token !in tokens || tokens[record.token] != approval.value || record.state != Consumed
         || row.subject != subject || row.digest != digest || row.expiresAt != expiresAt
         || row.state != Reserved || row.reservedAt != Some(reservedAt) {
        return false;
      }
      return record.scope.jobId == jobId && record.scope.digest == digest && record.scope.expiresAt == expiresAt
             && record.changedAt == reservedAt;
    }

    /** UPDATE ... WHERE job_id, handoff_sha256, state = RESERVED: of two callers one moves it. */
    method MarkExecution(jobId: Text, digest: Digest, now: int) returns (ok: bool)
      modifies `jobs
      ensures ok <==> jobId in old(jobs) && old(jobs)[jobId].digest == digest && old(jobs)[jobId].state == Reserved
      ensures jobs == if ok then old(jobs)[jobId := old(jobs)[jobId].(state := ExecutionCommitted, updatedAt := now)]
                      else old(jobs)
    {
      ok := jobId in jobs && jobs[jobId].digest == digest && jobs[jobId].state == Reserved;
      if ok {
        jobs := jobs[jobId := jobs[jobId].(state := ExecutionCommitted, updatedAt := now)];
      }
    }

    // -------------------------------------------------------------- pending jobs

    method Add(subject: Text, h: Handoff, now: int) returns (ok: bool)
      modifies `jobs, `pending
      ensures ok <==> && h.pending && Admissible(world, subject, h.jobId, h, now)
                      && |set id | id in old(pending) && now < old(pending)[id].expiresAt| < 1000
                      && h.jobId !in old(jobs) && h.jobId !in old(pending)
      ensures ok ==> && jobs == old(jobs)[h.jobId := JobRow(subject, Sha256(h), PendingApproval, h.issuedAt, None, now, h.expiresAt)]
                     && pending == old(pending)[h.jobId := PendingRow(subject, h, h.expiresAt)]
    {
      if !h.pending || !Admissible(world, subject, h.jobId, h, now) {
        return false;
      }
      var live := set id | id in pending && pending[id].expiresAt > now;
      assert live == set id | id in pending && now < pending[id].expiresAt;
      if |live| >= MAX_PENDING || h.jobId in jobs {
        return false;
      }
      jobs := jobs[h.jobId := JobRow(subject, Sha256(h), PendingApproval, h.issuedAt, None, now, h.expiresAt)];
      if h.jobId in pending {
        return false;
      }
      pending := pending[h.jobId := PendingRow(subject, h, h.expiresAt)];
      return true;
    }

    /** The stored wire, once it proves to be its ledger row's own issuance. */
    method Peek(jobId: Text) returns (waiting: Option<PendingRow>)
      ensures waiting.Some? <==>
                && jobId in pending && jobId in jobs
                && var p, j := pending[jobId], jobs[jobId];
                && j.state == PendingApproval && p.subject == j.subject && p.expiresAt == j.expiresAt == p.wire.expiresAt
                && j.digest == Sha256(p.wire) && j.createdAt == p.wire.issuedAt
                && p.wire.pending && Admissible(world, p.subject, jobId, p.wire, j.createdAt)
      ensures waiting.Some? ==> waiting.value == pending[jobId]
    {
      if jobId !in pending || jobId !in jobs {
        return None;
      }
      var p, j := pending[jobId], jobs[jobId];
      if j.state != PendingApproval || p.subject != j.subject || p.expiresAt != j.expiresAt || Sha256(p.wire) != j.digest {
        return None;
      }
      if !p.wire.pending || !Admissible(world, p.subject, jobId, p.wire, j.createdAt) {
        return None;
      }
      if p.wire.issuedAt != j.createdAt || p.wire.expiresAt != p.expiresAt {
        return None;
      }
      return Some(p);
    }

    method Refuse(jobId: Text, subject: Text, now: int) returns (ok: bool)
      modifies `jobs, `pending
      ensures ok <==> && 1 <= now <= 4102444800 && jobId in old(jobs)
                      && old(jobs)[jobId].state == PendingApproval && old(jobs)[jobId].subject == subject
                      && old(jobs)[jobId].createdAt <= now
      ensures ok ==> && pending == old(pending) - {jobId}
                     && jobs == old(jobs)[jobId := old(jobs)[jobId].(state := Refused, updatedAt := now)]
    {
      if !InTime(now) || jobId !in jobs || jobs[jobId].state != PendingApproval || jobs[jobId].subject != subject {
        return false;
      }
      if now < jobs[jobId].createdAt {
        return false;
      }
      pending := pending - {jobId};
      jobs := jobs[jobId := jobs[jobId].(state := JobState.Refused, updatedAt := now)];
      return true;
    }

    // -------------------------------------------------------------- approvals

    method InsertRecord(record: ApprovalRow) returns (ok: bool)
      modifies `approvals
      ensures ok <==> record.Hash() !in old(approvals)
      ensures approvals == if ok then old(approvals)[record.Hash() := record] else old(approvals)
    {
      ok := record.Hash() !in approvals;
      if ok {
        approvals := approvals[record.Hash() := record];
      }
    }

    method Grant(jobId: Text, subject: Text, h: Handoff, token: nat, ttl: int, now: int) returns (ok: bool, hash: RecordHash)
      requires h.jobId == jobId
      modifies `approvals, `tokens
      ensures var expiresAt := if now + ttl < h.expiresAt then now + ttl else h.expiresAt;
              var scope := Scope(Sha256(h), h.expiresAt, h.jobId, h.userId, h.workerAgentId, h.tier, h.policyVersion);
              var row := ApprovalRow(token, scope, now, expiresAt, Granted, now, None);
              && hash == RecordSha(token, scope, now, expiresAt, Granted, now, None)
              && (ok ==> approvals == old(approvals)[hash := row] && tokens == old(tokens)[token := hash])
              && (ok <==>
                    && 1 <= ttl <= 600 && 1 <= now < h.expiresAt <= 4102444800
                    && jobId in old(jobs) && jobId in old(pending)
                    && old(jobs)[jobId].state == PendingApproval
                    && old(jobs)[jobId].subject == old(pending)[jobId].subject == subject
                    && old(jobs)[jobId].digest == Sha256(old(pending)[jobId].wire) == Sha256(h)
                    && old(jobs)[jobId].expiresAt == old(pending)[jobId].expiresAt == h.expiresAt
                    && token !in old(tokens) && hash !in old(approvals)
                    && forall t :: t in old(tokens) && old(tokens)[t] in old(approvals) ==>
                         var r := old(approvals)[old(tokens)[t]];
                         r.scope != scope || r.state != Granted || r.expiresAt <= now)
    {
      var record := ApprovalRow(token, ScopeOf(h), now, Min(now + ttl, h.expiresAt), Granted, now, None);
      hash := record.Hash();
      if !(1 <= ttl <= MAX_APPROVAL_TTL) || !RecordValid(hash, record) {
        return false, hash;
      }
      if !Waits(Contents(), jobId, subject, h) || token in tokens {
        return false, hash;
      }
      if exists t :: t in tokens && LiveGrant(Contents(), t, ScopeOf(h), now) {
        return false, hash;
      }
      ok := InsertRecord(record);
      if ok {
        tokens := tokens[token := hash];
      }
    }

    /** One terminal successor, the pointer's advance, the pending row's removal and the reservation. */
    method Consume(token: nat, subject: Text, h: Handoff, now: int) returns (ok: bool, hash: Option<RecordHash>)
      modifies `approvals, `tokens, `pending, `jobs
      ensures ok <==> hash.Some?
      ensures ok <==>
                && 1 <= now <= 4102444800 && token in old(tokens) && old(tokens)[token] in old(approvals)
                && h.jobId in old(jobs) && h.jobId in old(pending)
                && var r, j := old(approvals)[old(tokens)[token]], old(jobs)[h.jobId];
                && r.token == token && r.state == Granted
                && r.scope == Scope(Sha256(h), h.expiresAt, h.jobId, h.userId, h.workerAgentId, h.tier, h.policyVersion)
                && 1 <= r.issuedAt <= now < r.expiresAt <= r.scope.expiresAt <= 4102444800
                && r.issuedAt <= r.changedAt <= 4102444800
                && old(tokens)[token] == RecordSha(token, r.scope, r.issuedAt, r.expiresAt, Granted, r.changedAt, r.previous)
                && j.state == PendingApproval && j.subject == subject && j.expiresAt == h.expiresAt
                && j.digest == Sha256(old(pending)[h.jobId].wire) == Sha256(h)
                && RecordSha(token, r.scope, r.issuedAt, r.expiresAt, Consumed, now, Some(old(tokens)[token])) !in old(approvals)
      ensures ok ==>
                var r, j := old(approvals)[old(tokens)[token]], old(jobs)[h.jobId];
                var c := ApprovalRow(token, r.scope, r.issuedAt, r.expiresAt, Consumed, now, Some(old(tokens)[token]));
                && hash == Some(c.Hash()) && approvals == old(approvals)[c.Hash() := c]
                && tokens == old(tokens)[token := c.Hash()] && pending == old(pending) - {h.jobId}
                && jobs == old(jobs)[h.jobId := JobRow(j.subject, j.digest, Reserved, j.createdAt, Some(now), now, j.expiresAt)]
    {
      if !InTime(now) || token !in tokens || tokens[token] !in approvals {
        return false, None;
      }
      var record := approvals[tokens[token]];
      if !RecordValid(tokens[token], record) || record.token != token || record.state != Granted || record.scope != ScopeOf(h) {
        return false, None;
      }
      if now < record.issuedAt || now >= record.expiresAt || !Redeems(Contents(), h.jobId, subject, h) {
        return false, None;
      }
      var updated := record.(state := Consumed, changedAt := now, previous := Some(record.Hash()));
      ok := InsertRecord(updated);
      if !ok {
        return false, None;
      }
      tokens := tokens[token := updated.Hash()];
      pending := pending - {h.jobId};
      jobs := jobs[h.jobId := jobs[h.jobId].(state := Reserved, reservedAt := Some(now), updatedAt := now)];
      return true, Some(updated.Hash());
    }

    // -------------------------------------------------------------- acceptances

    /** The insert and the two triggers around it: only from EXECUTION_COMMITTED, completing the job. */
    method ReserveAcceptance(h: Handoff, result: Result, now: int) returns (ok: bool)
      modifies `acceptances, `jobs
      ensures ok <==> && Sha256(h) !in old(acceptances) && h.jobId in old(jobs)
                      && old(jobs)[h.jobId].digest == Sha256(h) && old(jobs)[h.jobId].state == ExecutionCommitted
      ensures ok ==> && acceptances == old(acceptances)[Sha256(h) := AcceptanceRow(h.jobId, h, result, now)]
                     && jobs == old(jobs)[h.jobId := old(jobs)[h.jobId].(state := Completed, updatedAt := now)]
    {
      if Sha256(h) in acceptances {
        return false;
      }
      if !Holds(Contents(), h.jobId, Sha256(h), ExecutionCommitted) {
        return false;
      }
      acceptances := acceptances[Sha256(h) := AcceptanceRow(h.jobId, h, result, now)];
      jobs := jobs[h.jobId := jobs[h.jobId].(state := Completed, updatedAt := now)];
      return jobs[h.jobId].state == Completed && jobs[h.jobId].updatedAt == now;
    }

    // -------------------------------------------------------------- the audited transaction

    /** `_append`, inside the caller's transaction. */
    method AppendEvent(e: Event) returns (ok: bool)
      modifies `events
      ensures ok <==> 1 <= e.occurredAt <= 4102444800 && world.fits(old(events) + [e])
      ensures events == if ok then old(events) + [e] else old(events)
    {
      ok := InTime(e.occurredAt) && world.fits(events + [e]);
      if ok {
        events := events + [e];
      }
    }

    /** The rows of one mutation and the event it is recorded by. */
    method Mutate(txn: Txn) returns (event: Option<Event>)
      modifies `jobs, `pending, `approvals, `tokens, `acceptances
      ensures var next := Apply(world, old(Contents()), txn);
              next == if event.None? then None else Logged(world, Contents(), event.value)
    {
      hide Admissible, Accepts, JobIdOk, EventOf, GrantApproval, AdmitApproved, Logged;
      match txn {
        case IssueTxn(subject, h) =>
          if h.pending {
            return None;
          }
          return Some(EventOf(world, h, HandoffIssued, OtherReason(0), h.issuedAt, subject, None, None));
        case NoteTxn(subject, h, ofResult, code, at) =>
          var action := if ofResult then ResultRejected else HandoffRejected;
          return Some(EventOf(world, h, action, OtherReason(code), at, subject, None, None));
        case AddTxn(subject, h, now) =>
          assert LivePending(Contents(), now) == set id | id in pending && now < pending[id].expiresAt;
          var ok := Add(subject, h, now);
          if ok {
            return Some(EventOf(world, h, HandoffIssued, AwaitsApproval, h.issuedAt, subject, None, None));
          }
          return None;
        case GrantTxn(jobId, approver, subject, token, ttl, now) =>
          event := MutateGrant(jobId, approver, subject, token, ttl, now);
        case AdmitDirectTxn(subject, h, now) =>
          if h.pending || !Admissible(world, subject, h.jobId, h, now) || !JobIdOk(h.jobId) || !InTime(now)
             || !InTime(h.expiresAt) {
            return None;
          }
          var ok := ReserveAdmitted(h.jobId, subject, Sha256(h), now, h.expiresAt, None);
          if ok {
            return Some(EventOf(world, h, HandoffAdmitted, OtherReason(0), now, subject, None, None));
          }
          return None;
        case AdmitApprovedTxn(subject, h, token, now) =>
          event := MutateAdmitApproved(subject, h, token, now);
        case CommitTxn(subject, h, now) =>
          var ok := MarkExecution(h.jobId, Sha256(h), now);
          if ok {
            return Some(EventOf(world, h, ExecutionDispatched, OtherReason(0), now, subject, None, None));
          }
          return None;
        case AcceptTxn(subject, h, result, approval, now) =>
          if !InTime(now) || !Admissible(world, subject, h.jobId, h, now) || approval.Some? != h.pending
             || !Accepts(result, h, now) {
            return None;
          }
          var ok := ReserveAcceptance(h, result, now);
          if ok {
            return Some(EventOf(world, h, ResultAccepted, OtherReason(0), now, subject, approval, Some(result)));
          }
          return None;
        case RefuseTxn(jobId, subject, expired, now) =>
          if jobId !in pending {
            return None;
          }
          var wire := pending[jobId].wire;
          var ok := Refuse(jobId, subject, now);
          if ok {
            var reason := if expired then ApprovalExpired else DispatchRefused;
            return Some(EventOf(world, wire, HandoffRejected, reason, now, subject, None, None));
          }
          return None;
      }
    }

    method MutateGrant(jobId: Text, approver: Text, subject: Text, token: nat, ttl: int, now: int)
      returns (event: Option<Event>)
      modifies `approvals, `tokens
      ensures GrantApproval(world, old(Contents()), jobId, approver, subject, token, ttl, now) ==
              if event.None? then None else Logged(world, Contents(), event.value)
    {
      if jobId !in pending {
        return None;
      }
      var p := pending[jobId];
      if p.wire.userId == approver || !p.wire.pending || !Admissible(world, p.subject, jobId, p.wire, now) {
        return None;
      }
      var ok, hash := Grant(jobId, p.subject, p.wire, token, ttl, now);
      if !ok {
        return None;
      }
      return Some(EventOf(world, p.wire, ApprovalGranted, OtherReason(0), now, subject, Some(hash), None));
    }

    method MutateAdmitApproved(subject: Text, h: Handoff, token: nat, now: int) returns (event: Option<Event>)
      modifies `approvals, `tokens, `pending, `jobs
      ensures AdmitApproved(world, old(Contents()), subject, h, token, now) ==
              if event.None? then None else Logged(world, Contents(), event.value)
    {
      if !h.pending || !Admissible(world, subject, h.jobId, h, now) || !JobIdOk(h.jobId) || !InTime(h.expiresAt) {
        return None;
      }
      var ok, hash := Consume(token, subject, h, now);
      if !ok {
        return None;
      }
      ok := ReserveAdmitted(h.jobId, subject, Sha256(h), now, h.expiresAt, hash);
      if !ok {
        return None;
      }
      return Some(EventOf(world, h, HandoffAdmitted, OtherReason(0), now, subject, hash, None));
    }

    /** One transaction: the mutation with its event, or nothing. */
    method Transact(txn: Txn) returns (ok: bool)
      modifies this
      ensures ok <==> Apply(world, old(Contents()), txn).Some?
      ensures Contents() == if ok then Apply(world, old(Contents()), txn).value else old(Contents())
    {
      hide Apply;
      var before := Contents();
      var event := Mutate(txn);
      ok := event.Some?;
      if ok {
        ok := AppendEvent(event.value);
      }
      if !ok {
        jobs, pending, approvals := before.jobs, before.pending, before.approvals;
        tokens, acceptances, events := before.tokens, before.acceptances, before.events;
      }
    }
  }
}
