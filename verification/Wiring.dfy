/** One instance of the service around the shared stores and the anchor: appending and anchoring
    under one lock, as it runs (geniusnew/wiring.py). */
module Wiring {
  import opened Prelude
  import opened AuditChain
  import opened Ledger
  import opened Reconciliation
  import opened LedgerInvariant
  import opened Reopening
  import opened Service
  import opened ServiceSafety
  import opened ServiceRuns
  import opened Database
  import opened StartChecks

  lemma OneInstance(owed: bool, owes: bool)
    ensures map[0 as nat := owed][0 := owes] == map[0 as nat := owes]
  {
  }

  predicate Takes(s: Scheme<Event>, at: Commitment, head: AuditHead, records: seq<AuditRecord<Event>>) {
    Commit(s, at, head, records).Some?
  }

  class AnchoredAudit {
    const stores: Tables
    const anchor: AuditAnchor<Event>
    var needsReanchor: bool

    ghost predicate Valid()
      reads this, anchor
    {
      anchor.scheme == stores.world.scheme
    }

    /** The shared state with this as its one live instance. */
    function View(): Shared
      reads this, stores, anchor
    {
      Shared(stores.Contents(), anchor.Committed(), map[0 := needsReanchor])
    }

    constructor (stores: Tables, anchor: AuditAnchor<Event>)
      requires anchor.scheme == stores.world.scheme
      ensures Valid() && this.stores == stores && this.anchor == anchor && !needsReanchor
    {
      this.stores, this.anchor := stores, anchor;
      needsReanchor := false;
    }

    /** `_commit_locked`. What the network makes of the request and its answer is `ack`. */
    method Commit(ack: Ack) returns (acked: bool)
      requires Valid()
      modifies anchor
      ensures Valid()
      ensures (anchor.Committed(), acked) == Anchored(stores.world, old(anchor.Committed()), stores.events, ack)
      ensures var records := Records(stores.world.scheme, stores.events);
              var end := if records == [] then EmptyHash() else records[|records| - 1].recordHash;
              var body := HeadBody("geniusnew-audit-head-v2", |stores.events|, end);
              var taken := ack != Undelivered
                           && Takes(stores.world.scheme, old(anchor.Committed()), AuditHead(body, stores.world.sign(body)), records);
              && anchor.Committed() == (if taken then Commitment(|stores.events|, end) else old(anchor.Committed()))
              && (acked <==> taken && ack == Answered)
    {
      var records := Records(stores.world.scheme, stores.events);
      var head := HeadOf(stores.world.sign, records);
      if ack == Undelivered {
        return false;
      }
      var answer := anchor.CommitChain(head, records);
      if answer.None? || ack != Answered {
        return false;
      }
      return answer.value == Commitment(head.count, head.headHash);
    }

    /** `_ack_locked`: a failure is remembered until a commit is acknowledged. */
    method Acknowledge(ack: Ack) returns (acked: bool)
      requires Valid()
      modifies this, anchor
      ensures Valid()
      ensures (anchor.Committed(), acked) == Anchored(stores.world, old(anchor.Committed()), stores.events, ack)
      ensures needsReanchor <==> !acked
      ensures acked ==> ack == Answered
    {
      acked := Commit(ack);
      needsReanchor := !acked;
    }

    /** `_recover_locked`. */
    method Recover(recover: Ack) returns (ready: bool)
      requires Valid()
      modifies this, anchor
      ensures Valid()
      ensures (anchor.Committed(), ready) ==
              if old(needsReanchor) then Anchored(stores.world, old(anchor.Committed()), stores.events, recover)
              else (old(anchor.Committed()), true)
      ensures needsReanchor <==> !ready
      ensures old(needsReanchor) && ready ==> recover == Answered
      ensures !old(needsReanchor) ==> ready
    {
      ready := true;
      if needsReanchor {
        ready := Acknowledge(recover);
      }
    }

    /** Nothing is mutated before an owed commit is acknowledged; then one transaction, then the anchor. */
    method Atomic(txn: Txn, recover: Ack, ack: Ack) returns (ok: bool)
      requires Valid()
      modifies this, stores, anchor
      ensures Valid()
      ensures (View(), ok) == Service.Atomic(stores.world, old(View()), 0, txn, recover, ack)
      ensures ok ==> ack == Answered && (old(needsReanchor) ==> recover == Answered) && !needsReanchor
      ensures ok ==> Apply(stores.world, old(stores.Contents()), txn) == Some(stores.Contents())
      ensures stores.Contents() == old(stores.Contents()) || Apply(stores.world, old(stores.Contents()), txn) == Some(stores.Contents())
      ensures old(needsReanchor) && recover != Answered ==> stores.Contents() == old(stores.Contents()) && needsReanchor && !ok
      ensures !old(needsReanchor) && Apply(stores.world, old(stores.Contents()), txn).Some? ==>
                stores.Contents() == Apply(stores.world, old(stores.Contents()), txn).value && (needsReanchor <==> !ok)
    {
      hide Anchored, Apply;
      ghost var owed := needsReanchor;
      ok := Recover(recover);
      OneInstance(owed, needsReanchor);
      if !ok {
        return;
      }
      ok := stores.Transact(txn);
      if !ok {
        return;
      }
      ok := Acknowledge(ack);
      OneInstance(owed, needsReanchor);
    }

    method Head(ack: Ack) returns (ok: bool)
      requires Valid()
      modifies this, anchor
      ensures Valid()
      ensures (View(), ok) == Service.Head(stores.world, old(View()), 0, ack)
    {
      hide Anchored;
      ghost var owed := needsReanchor;
      ok := Acknowledge(ack);
      OneInstance(owed, needsReanchor);
    }

    /** `build`: the committed store opens, its head is acknowledged, and only then is the rest of it
        checked; nothing is served unless all three go well. */
    method Start(start: Ack) returns (ok: bool)
      requires Valid()
      modifies this, anchor
      ensures Valid()
      ensures var down := Shared(old(stores.Contents()), old(anchor.Committed()), map[]);
              Launched(stores.world, down, 0, start) == if ok then View() else View().(instances := map[])
      ensures ok ==> start == Answered && !needsReanchor
      ensures ok ==> Opens(stores.world, stores.Contents()) && Serves(stores.world, stores.Contents())
    {
      hide Anchored, Opens, Serves;
      ok := OpeningChecks(stores.world, stores.Contents());
      if !ok {
        return;
      }
      ok := Acknowledge(start);
      if !ok {
        return;
      }
      ok := ServingChecks(stores.world, stores.Contents());
    }
  }

  /** A waiting job never fails its own re-check: in a reachable store `Peek` refuses only what is
      not waiting. */
  lemma WaitingAlwaysPeeks(w: World, moves: seq<Move>, jobId: Text)
    requires WorldValid(w)
    ensures var st := Run(w, moves).shared.store;
            jobId in st.pending ==> jobId in st.jobs && PendingBound(w, jobId, st.pending[jobId], st.jobs[jobId])
  {
    hide ApprovalsConsistent, ApprovalsMatch, AcceptancesHistorical, ResultsMatch;
    hide BooksBalance, IssuancesOk, JobsOk, PendingTied;
    hide PendingBound, TaskOk, CallsOk, CallsHeldOnce, WorkDone, ToldOk, Step;
    RunKeeps(w, moves);
    PendingReopens(w, Run(w, moves).shared.store);
  }
}
