/** Approval tokens over a whole run: whatever the clocks do, the windows of the grants that could
    still be consumed for one job never overlap. */
module OneLiveGrant {
  import opened Prelude
  import opened Handoffs
  import opened Results
  import opened Ledger
  import opened Service

  predicate TipGranted(st: Store, token: nat) {
    token in st.tokens && st.tokens[token] in st.approvals && st.approvals[st.tokens[token]].state == Granted
  }

  predicate WindowsApart(r: ApprovalRow, q: ApprovalRow) {
    r.expiresAt <= q.issuedAt || q.expiresAt <= r.issuedAt
  }

  predicate Apart(st: Store, t: nat, u: nat) {
    TipGranted(st, t) && TipGranted(st, u) && t != u
    && st.approvals[st.tokens[t]].scope == st.approvals[st.tokens[u]].scope ==>
      WindowsApart(st.approvals[st.tokens[t]], st.approvals[st.tokens[u]])
  }

  predicate GrantsApart(st: Store) {
    && (forall t :: t in st.tokens ==> st.tokens[t] in st.approvals)
    && (forall t, u :: t in st.tokens && u in st.tokens ==> Apart(st, t, u))
  }

  lemma SameGrants(st: Store, next: Store)
    requires GrantsApart(st) && next.approvals == st.approvals && next.tokens == st.tokens
    ensures GrantsApart(next)
  {
    forall t, u | t in next.tokens && u in next.tokens
      ensures Apart(next, t, u)
    {
      assert Apart(st, t, u);
    }
  }

  lemma GrantKeepsApart(w: World, st: Store, id: Text, approver: Text, subject: Text, token: nat, ttl: int, now: int)
    requires GrantsApart(st) && GrantApproval(w, st, id, approver, subject, token, ttl, now).Some?
    ensures GrantsApart(GrantApproval(w, st, id, approver, subject, token, ttl, now).value)
  {
    hide Admissible, RecordValid, Waits, Redeems;
    var next := GrantApproval(w, st, id, approver, subject, token, ttl, now).value;
    var h := st.pending[id].wire;
    forall t, u | t in next.tokens && u in next.tokens
      ensures Apart(next, t, u)
    {
      if t != token && u != token {
        assert Apart(st, t, u);
      } else {
        assert t != token ==> !LiveGrant(st, t, ScopeOf(h), now);
        assert u != token ==> !LiveGrant(st, u, ScopeOf(h), now);
      }
    }
  }

  lemma ConsumeKeepsApart(w: World, st: Store, subject: Text, h: Handoff, token: nat, now: int)
    requires GrantsApart(st) && AdmitApproved(w, st, subject, h, token, now).Some?
    ensures GrantsApart(AdmitApproved(w, st, subject, h, token, now).value)
  {
    hide Admissible, RecordValid, Waits, Redeems, JobIdOk;
    var next := AdmitApproved(w, st, subject, h, token, now).value;
    forall t, u | t in next.tokens && u in next.tokens
      ensures Apart(next, t, u)
    {
      assert Apart(st, t, u);
    }
  }

  lemma OthersKeepGrants(w: World, st: Store, txn: Txn)
    requires Apply(w, st, txn).Some? && !txn.GrantTxn? && !txn.AdmitApprovedTxn?
    ensures Apply(w, st, txn).value.approvals == st.approvals && Apply(w, st, txn).value.tokens == st.tokens
  {
    hide Admissible, RecordValid, Waits, Redeems, JobIdOk, LivePending, Accepts;
  }

  lemma ApplyKeepsApart(w: World, st: Store, txn: Txn)
    requires GrantsApart(st) && Apply(w, st, txn).Some?
    ensures GrantsApart(Apply(w, st, txn).value)
  {
    hide GrantsApart, GrantApproval, AdmitApproved, AddPending, IssueDirect, Note, AdmitDirect, CommitExecution,
         AcceptResult, RefusePending;
    match txn
    case GrantTxn(id, approver, subject, token, ttl, now) => GrantKeepsApart(w, st, id, approver, subject, token, ttl, now);
    case AdmitApprovedTxn(subject, h, token, now) => ConsumeKeepsApart(w, st, subject, h, token, now);
    case _ =>
      OthersKeepGrants(w, st, txn);
      SameGrants(st, Apply(w, st, txn).value);
  }

  /** At any instant at most one token admits a job, whatever the clocks did before. */
  lemma OneConsumableToken(w: World, st: Store, s: Text, h: Handoff, t: nat, s': Text, h': Handoff, u: nat, now: int)
    requires GrantsApart(st) && h.jobId == h'.jobId
    requires AdmitApproved(w, st, s, h, t, now).Some? && AdmitApproved(w, st, s', h', u, now).Some?
    ensures t == u && h == h' && s == s'
  {
    hide Admissible, RecordValid, JobIdOk;
    assert Apart(st, t, u);
  }
}
