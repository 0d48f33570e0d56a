/** The approval store in memory: one record per token, each transition linked by hash to what it
    replaces (geniusnew/approvals.py:189-273). Revocation is part of it; the service wires none. */
module Approvals {
  import opened Prelude
  import opened Ledger

  datatype StoreOp =
    | GrantToken(token: nat, scope: Scope, now: int, ttl: int)
    | ConsumeToken(token: nat, scope: Scope, now: int)
    | RevokeToken(token: nat, scope: Scope, now: int)

  type Records = map<nat, ApprovalRow>

  predicate GrantTaken(records: Records, op: StoreOp)
    requires op.GrantToken?
  {
    1 <= op.ttl <= MAX_APPROVAL_TTL && op.now < op.scope.expiresAt && op.token !in records
  }

  /** A granted token of this scope, not before it was issued, and to be consumed, not expired. */
  predicate ChangeTaken(records: Records, op: StoreOp)
    requires !op.GrantToken?
  {
    && op.token in records && records[op.token].scope == op.scope && records[op.token].state == Granted
    && records[op.token].issuedAt <= op.now && (op.ConsumeToken? ==> op.now < records[op.token].expiresAt)
  }

  predicate Taken(records: Records, op: StoreOp) {
    if op.GrantToken? then GrantTaken(records, op) else ChangeTaken(records, op)
  }

  function Successor(r: ApprovalRow, state: ApprovalState, now: int): ApprovalRow {
    r.(state := state, changedAt := now, previous := Some(r.Hash()))
  }

  function Next(records: Records, op: StoreOp): Records {
    if !Taken(records, op) then records
    else match op
    case GrantToken(token, scope, now, ttl) =>
      records[token := ApprovalRow(token, scope, now, Min(now + ttl, scope.expiresAt), Granted, now, None)]
    case ConsumeToken(token, _, now) => records[token := Successor(records[token], Consumed, now)]
    case RevokeToken(token, _, now) => records[token := Successor(records[token], Revoked, now)]
  }

  class ApprovalStore {
    var records: Records

    constructor ()
      ensures records == RunStore([])
    {
      records := map[];
    }

    method Grant(token: nat, scope: Scope, now: int, ttl: int) returns (hash: Option<RecordHash>)
      modifies this
      ensures var op := GrantToken(token, scope, now, ttl);
              && records == Next(old(records), op) && (hash.Some? <==> Taken(old(records), op))
              && (hash.Some? ==> token in records && hash == Some(records[token].Hash()))
      ensures hash.Some? <==> 1 <= ttl <= 600 && now < scope.expiresAt && token !in old(records)
      ensures var expiresAt := if now + ttl < scope.expiresAt then now + ttl else scope.expiresAt;
              hash.Some? ==> records == old(records)[token := ApprovalRow(token, scope, now, expiresAt, Granted, now, None)]
    {
      if ttl <= 0 || ttl > MAX_APPROVAL_TTL || now >= scope.expiresAt {
        return None;
      }
      var record := ApprovalRow(token, scope, now, Min(now + ttl, scope.expiresAt), Granted, now, None);
      if token in records {
        return None;
      }
      records := records[token := record];
      return Some(record.Hash());
    }

    method Consume(token: nat, scope: Scope, now: int) returns (receipt: Option<RecordHash>)
      modifies this
      ensures var op := ConsumeToken(token, scope, now);
              && records == Next(old(records), op) && (receipt.Some? <==> Taken(old(records), op))
              && (receipt.Some? ==> token in records && receipt == Some(records[token].Hash()))
      ensures receipt.Some? <==> && token in old(records) && old(records)[token].scope == scope
                                 && old(records)[token].state == Granted
                                 && old(records)[token].issuedAt <= now < old(records)[token].expiresAt
    {
      receipt := Transition(token, scope, now, Consumed, true);
    }

    method Revoke(token: nat, scope: Scope, now: int) returns (receipt: Option<RecordHash>)
      modifies this
      ensures var op := RevokeToken(token, scope, now);
              && records == Next(old(records), op) && (receipt.Some? <==> Taken(old(records), op))
              && (receipt.Some? ==> token in records && receipt == Some(records[token].Hash()))
      ensures receipt.Some? <==> && token in old(records) && old(records)[token].scope == scope
                                 && old(records)[token].state == Granted && old(records)[token].issuedAt <= now
    {
      receipt := Transition(token, scope, now, Revoked, false);
    }

    method Transition(token: nat, scope: Scope, now: int, state: ApprovalState, requireUnexpired: bool)
      returns (receipt: Option<RecordHash>)
      modifies this
      ensures receipt.Some? <==> && token in old(records) && old(records)[token].scope == scope
                                 && old(records)[token].state == Granted && old(records)[token].issuedAt <= now
                                 && (requireUnexpired ==> now < old(records)[token].expiresAt)
      ensures receipt.Some? ==>
                var r := old(records)[token];
                records == old(records)[token := ApprovalRow(r.token, r.scope, r.issuedAt, r.expiresAt, state, now, Some(r.Hash()))]
      ensures receipt.None? ==> records == old(records)
      ensures receipt.Some? ==> receipt.value == records[token].Hash()
    {
      if token !in records || records[token].scope != scope || records[token].state != Granted {
        return None;
      }
      var record := records[token];
      if now < record.issuedAt || (requireUnexpired && now >= record.expiresAt) {
        return None;
      }
      var updated := record.(state := state, changedAt := now, previous := Some(record.Hash()));
      records := records[token := updated];
      return Some(updated.Hash());
    }
  }

  // ---------------------------------------------------------------- every run

  function RunStore(ops: seq<StoreOp>): Records {
    if ops == [] then map[] else Next(RunStore(ops[..|ops| - 1]), ops[|ops| - 1])
  }

  /** The root a record stands for or descends from. */
  function RootOf(r: ApprovalRow): ApprovalRow { r.(state := Granted, changedAt := r.issuedAt, previous := None) }

  /** A granted root, or one terminal successor linked to it, within its time. */
  predicate WellLinked(token: nat, r: ApprovalRow) {
    && r.token == token && r.issuedAt < r.expiresAt <= r.scope.expiresAt && r.expiresAt <= r.issuedAt + MAX_APPROVAL_TTL
    && (r.state == Granted ==> r == RootOf(r))
    && (r.state != Granted ==> r.previous == Some(RootOf(r).Hash()) && r.issuedAt <= r.changedAt)
    && (r.state == Consumed ==> r.changedAt < r.expiresAt)
  }

  lemma {:induction false} EveryRecordLinked(ops: seq<StoreOp>, token: nat)
    requires token in RunStore(ops)
    ensures WellLinked(token, RunStore(ops)[token])
  {
    var before := RunStore(ops[..|ops| - 1]);
    if token in before {
      EveryRecordLinked(ops[..|ops| - 1], token);
    }
  }

  /** A spent or revoked token never changes again. */
  lemma {:induction false} TerminalForever(ops: seq<StoreOp>, more: seq<StoreOp>, token: nat)
    requires token in RunStore(ops)
    ensures token in RunStore(ops + more)
    ensures RunStore(ops)[token].state != Granted ==> RunStore(ops + more)[token] == RunStore(ops)[token]
    decreases |more|
  {
    if more == [] {
      assert ops + more == ops;
    } else {
      assert (ops + more)[..|ops + more| - 1] == ops + more[..|more| - 1];
      TerminalForever(ops, more[..|more| - 1], token);
    }
  }

  predicate Ends(ops: seq<StoreOp>, i: nat, token: nat)
    requires i < |ops|
  {
    !ops[i].GrantToken? && ops[i].token == token && Taken(RunStore(ops[..i]), ops[i])
  }

  /** However tokens are granted, consumed and revoked, each ends at most once. */
  lemma EndsOnce(ops: seq<StoreOp>, i: nat, j: nat, token: nat)
    requires i < |ops| && j < |ops| && Ends(ops, i, token) && Ends(ops, j, token)
    ensures i == j
  {
    if i < j {
      EndsBefore(ops, i, j, token);
    } else if j < i {
      EndsBefore(ops, j, i, token);
    }
  }

  lemma EndsBefore(ops: seq<StoreOp>, i: nat, j: nat, token: nat)
    requires i < j < |ops| && Ends(ops, i, token)
    ensures !Ends(ops, j, token)
  {
    var first := ops[..i + 1];
    assert first[..|first| - 1] == ops[..i] && first[|first| - 1] == ops[i];
    assert ops[..j] == first + ops[i + 1..j];
    TerminalForever(first, ops[i + 1..j], token);
  }
}
