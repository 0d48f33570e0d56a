/** The start-up checks as they run: loops over rows and events that fill tables of their own, and
    answer exactly whether the store reconciles (geniusnew/database.py, geniusnew/audit_store.py). */
module StartChecks {
  import opened Prelude
  import opened Handoffs
  import opened Bags
  import opened Ledger
  import opened Reconciliation

  // ---------------------------------------------------------------- counters

  method CountRows<I(==), R, K(==)>(rows: map<I, R>, key: (I, R) -> Option<K>) returns (bag: multiset<K>)
    ensures bag == RowBag(rows, key)
  {
    bag := multiset{};
    var left := rows;
    while left != map[]
      invariant left.Keys <= rows.Keys && forall i :: i in left ==> left[i] == rows[i]
      invariant bag + RowBag(left, key) == RowBag(rows, key)
      decreases |left|
    {
      var i :| i in left;
      RowBagRemove(left, key, i);
      bag := bag + One(key(i, left[i]));
      left := left - {i};
    }
  }

  method CountEvents<E, K(==)>(events: seq<E>, key: E -> Option<K>) returns (bag: multiset<K>)
    ensures bag == EventBag(events, key)
  {
    bag := multiset{};
    for i := 0 to |events|
      invariant bag == EventBag(events[..i], key)
    {
      assert events[..i + 1] == events[..i] + [events[i]];
      EventBagAppend(events[..i], key, events[i]);
      bag := bag + One(key(events[i]));
    }
    assert events[..|events|] == events;
  }

  method EachOnce<K(!new, ==)>(bag: multiset<K>) returns (ok: bool)
    ensures ok <==> CountedOnce(bag)
  {
    var left := bag;
    while left != multiset{}
      invariant left <= bag
      invariant forall k :: k in left ==> left[k] == bag[k]
      invariant forall k :: k !in left ==> bag[k] <= 1
      decreases |left|
    {
      var k :| k in left;
      if bag[k] != 1 {
        return false;
      }
      left := left - multiset{k};
    }
    return true;
  }

  // ---------------------------------------------------------------- pending jobs and acceptances

  /** `PostgresPendingJobs._check`. */
  method CheckPending(w: World, st: Store) returns (ok: bool)
    ensures ok <==> PendingConsistent(w, st)
  {
    hide PendingBound;
    if PendingConsistent(w, st) {
      PendingRowsWait(w, st);
    }
    if exists id :: id in st.jobs && st.jobs[id].state == PendingApproval && id !in st.pending {
      return false;
    }
    if exists id :: id in st.pending && (id !in st.jobs || st.jobs[id].state != PendingApproval) {
      return false;
    }
    var left := st.pending.Keys;
    while left != {}
      invariant left <= st.pending.Keys
      invariant forall id :: id in st.pending && id !in left ==> PendingBound(w, id, st.pending[id], st.jobs[id])
    {
      var id :| id in left;
      if !PendingBound(w, id, st.pending[id], st.jobs[id]) {
        return false;
      }
      left := left - {id};
    }
    return true;
  }

  lemma PendingRowsWait(w: World, st: Store)
    requires PendingConsistent(w, st)
    ensures forall id :: id in st.pending ==> id in st.jobs && st.jobs[id].state == PendingApproval
  {
    forall id | id in st.pending
      ensures id in st.jobs && st.jobs[id].state == PendingApproval
    {
      assert PendingBound(w, id, st.pending[id], st.jobs[id]);
    }
  }

  /** `PostgresAcceptanceLedger.check`: every stored result again, at its original time. */
  method CheckAcceptances(w: World, st: Store) returns (ok: bool)
    ensures ok <==> JobLedgerValid(st.jobs) && AcceptancesHistorical(w, st)
  {
    hide AcceptanceHistorical, JobRowValid, AcceptanceBound, CompletionBound;
    if !JobLedgerValid(st.jobs) || !AcceptancesBound(st.jobs, st.acceptances) {
      return false;
    }
    BoundJobs(st);
    var left := st.acceptances.Keys;
    while left != {}
      invariant left <= st.acceptances.Keys
      invariant forall d :: d in st.acceptances && d !in left ==>
                  AcceptanceHistorical(w, st.jobs[st.acceptances[d].jobId], d, st.acceptances[d])
    {
      var d :| d in left;
      var a := st.acceptances[d];
      if !AcceptanceHistorical(w, st.jobs[a.jobId], d, a) {
        return false;
      }
      left := left - {d};
    }
    return true;
  }

  lemma BoundJobs(st: Store)
    requires AcceptancesBound(st.jobs, st.acceptances)
    ensures forall d :: d in st.acceptances ==> st.acceptances[d].jobId in st.jobs
  {
    forall d | d in st.acceptances
      ensures st.acceptances[d].jobId in st.jobs
    {
      assert AcceptanceBound(st.jobs, d, st.acceptances[d]);
    }
  }

  // ---------------------------------------------------------------- approval histories

  /** The records of every token, in one pass that also checks each record. */
  method GroupRecords(approvals: map<RecordHash, ApprovalRow>) returns (ok: bool, records: map<nat, set<RecordHash>>)
    ensures ok <==> forall h :: h in approvals ==> RecordValid(h, approvals[h])
    ensures ok ==> forall t :: t in records ==> records[t] == History(approvals, t) && records[t] != {}
    ensures ok ==> forall h :: h in approvals ==> approvals[h].token in records
  {
    hide RecordValid;
    records := map[];
    var left := approvals.Keys;
    while left != {}
      invariant left <= approvals.Keys
      invariant forall h :: h in approvals && h !in left ==> RecordValid(h, approvals[h]) && approvals[h].token in records
      invariant forall t :: t in records ==> records[t] == History(approvals, t) - left && records[t] != {}
    {
      var h :| h in left;
      if !RecordValid(h, approvals[h]) {
        return false, map[];
      }
      var t := approvals[h].token;
      assert t !in records ==> History(approvals, t) - left == {};
      records := records[t := (if t in records then records[t] else {}) + {h}];
      left := left - {h};
    }
    return true, records;
  }

  lemma OnlyOne<T>(s: set<T>, x: T)
    requires x in s && |s| == 1
    ensures s == {x}
  {
    var rest := s - {x};
    assert |rest| == 0;
  }

  /** One token's history: a granted root, at most one terminal successor, and the pointer on the tip. */
  method CheckHistory(approvals: map<RecordHash, ApprovalRow>, token: nat, history: set<RecordHash>, pointer: RecordHash)
    returns (ok: bool)
    requires forall h :: h in approvals ==> h == approvals[h].Hash()
    requires history == History(approvals, token)
    ensures ok <==> HistoryOf(approvals, token, pointer) && approvals[pointer].token == token
  {
    hide HistoryOf;
    var roots := set h | h in history && approvals[h].previous == None;
    if |roots| != 1 {
      RootsAreOne(approvals, token, pointer, roots);
      return false;
    }
    var root :| root in roots;
    OnlyOne(roots, root);
    if approvals[root].state != Granted || approvals[root].changedAt != approvals[root].issuedAt {
      RootsAreOne(approvals, token, pointer, roots);
      return false;
    }
    var successors := set h | h in history && approvals[h].previous != None;
    assert history == roots + successors;
    if |successors| > 1 {
      SuccessorsAreFew(approvals, token, pointer, successors);
      return false;
    }
    if successors == {} {
      OnlyRoot(approvals, token, pointer, root);
      ok := pointer == root;
      return;
    }
    var next :| next in successors;
    OnlyOne(successors, next);
    RootAndNext(approvals, token, pointer, root, next);
    var r, n := approvals[root], approvals[next];
    if n.previous != Some(root) || n.state == Granted || n.scope != r.scope || n.issuedAt != r.issuedAt
       || n.expiresAt != r.expiresAt || n.changedAt < r.changedAt {
      return false;
    }
    ok := pointer == next;
  }

  lemma OnlyRoot(approvals: map<RecordHash, ApprovalRow>, token: nat, pointer: RecordHash, root: RecordHash)
    requires History(approvals, token) == {root} && GrantedRoot(approvals[root])
    ensures HistoryOf(approvals, token, pointer) && approvals[pointer].token == token <==> pointer == root
  {
    assert root in History(approvals, token);
    if HistoryOf(approvals, token, pointer) && approvals[pointer].token == token {
      assert pointer in History(approvals, token);
    }
  }

  lemma RootAndNext(approvals: map<RecordHash, ApprovalRow>, token: nat, pointer: RecordHash, root: RecordHash,
                    next: RecordHash)
    requires History(approvals, token) == {root, next} && root == approvals[root].Hash()
    requires GrantedRoot(approvals[root]) && approvals[next].previous != None
    ensures HistoryOf(approvals, token, pointer) && approvals[pointer].token == token <==>
            pointer == next && Succeeds(approvals[next], approvals[root])
  {
    assert root in History(approvals, token) && next in History(approvals, token);
    assert next in {root, next} && next !in {root};
    if HistoryOf(approvals, token, pointer) && approvals[pointer].token == token {
      assert pointer in History(approvals, token);
    }
  }

  lemma RootsAreOne(approvals: map<RecordHash, ApprovalRow>, token: nat, pointer: RecordHash, roots: set<RecordHash>)
    requires forall h :: h in approvals ==> h == approvals[h].Hash()
    requires roots == set h | h in History(approvals, token) && approvals[h].previous == None
    ensures HistoryOf(approvals, token, pointer) && approvals[pointer].token == token ==>
              |roots| == 1 && forall root :: root in roots ==> GrantedRoot(approvals[root])
  {
    if HistoryOf(approvals, token, pointer) && approvals[pointer].token == token {
      var root := if approvals[pointer].previous == None then pointer else approvals[pointer].previous.value;
      assert roots == {root};
    }
  }

  lemma SuccessorsAreFew(approvals: map<RecordHash, ApprovalRow>, token: nat, pointer: RecordHash, successors: set<RecordHash>)
    requires successors == set h | h in History(approvals, token) && approvals[h].previous != None
    ensures HistoryOf(approvals, token, pointer) && approvals[pointer].token == token ==> |successors| <= 1
  {
    if HistoryOf(approvals, token, pointer) && approvals[pointer].token == token {
      assert successors == if approvals[pointer].previous == None then {} else {pointer};
    }
  }

  /** `_check_approvals`. */
  method CheckApprovals(st: Store) returns (ok: bool)
    ensures ok <==> ApprovalsConsistent(st)
  {
    hide RecordValid, HistoryOf, ConsumedBound, SettledSoFar;
    StartsSettled(st);
    var records: map<nat, set<RecordHash>>;
    ok, records := GroupRecords(st.approvals);
    if !ok {
      return;
    }
    HashesAreKeys(st.approvals);
    if records.Keys != st.tokens.Keys {
      TokensAreKnown(st, records);
      return false;
    }
    var consumedJobs: set<Text> := {};
    var left := records.Keys;
    ghost var done: set<nat> := {};
    while left != {}
      invariant left <= records.Keys && done == records.Keys - left && SettledSoFar(st, done, consumedJobs)
    {
      var t :| t in left;
      var good := CheckHistory(st.approvals, t, records[t], st.tokens[t]);
      if !good {
        return false;
      }
      KnownTip(st, t);
      var tip := st.approvals[st.tokens[t]];
      if tip.state == Consumed {
        if tip.scope.jobId in consumedJobs {
          PaidTwice(st, done, consumedJobs, t);
          return false;
        }
        if !ConsumedBound(st, tip) {
          assert TipConsumed(st, t);
          return false;
        }
      }
      SettleOne(st, done, consumedJobs, t);
      assert tip.state != Consumed ==> consumedJobs + {} == consumedJobs;
      if tip.state == Consumed {
        consumedJobs := consumedJobs + {tip.scope.jobId};
      }
      left, done := left - {t}, done + {t};
    }
    assert done == st.tokens.Keys;
    AllSettled(st, consumedJobs);
    return true;
  }

  predicate PaysFor(st: Store, t: nat, job: Text) {
    TipConsumed(st, t) && st.approvals[st.tokens[t]].scope.jobId == job
  }

  /** The part of `_check_approvals` about one token. */
  predicate TokenSettled(st: Store, t: nat) {
    && t in st.tokens && HistoryOf(st.approvals, t, st.tokens[t])
    && st.tokens[t] in st.approvals && st.approvals[st.tokens[t]].token == t
    && (TipConsumed(st, t) ==> ConsumedBound(st, st.approvals[st.tokens[t]]))
  }

  ghost predicate SettledSoFar(st: Store, done: set<nat>, consumedJobs: set<Text>) {
    && (forall t :: t in done ==> TokenSettled(st, t))
    && (forall j :: j in consumedJobs <==> exists t :: t in done && PaysFor(st, t, j))
    && (forall t, u :: t in done && u in done ==> ConsumesApart(st, t, u))
  }

  lemma StartsSettled(st: Store)
    ensures SettledSoFar(st, {}, {})
  {
  }

  lemma SettleOne(st: Store, done: set<nat>, consumedJobs: set<Text>, t: nat)
    requires SettledSoFar(st, done, consumedJobs) && TokenSettled(st, t)
    requires TipConsumed(st, t) ==> st.approvals[st.tokens[t]].scope.jobId !in consumedJobs
    ensures SettledSoFar(st, done + {t},
                         consumedJobs + if TipConsumed(st, t) then {st.approvals[st.tokens[t]].scope.jobId} else {})
  {
    hide HistoryOf, ConsumedBound;
    var jobs := consumedJobs + if TipConsumed(st, t) then {st.approvals[st.tokens[t]].scope.jobId} else {};
    forall j
      ensures j in jobs <==> exists u :: u in done + {t} && PaysFor(st, u, j)
    {
      if j in consumedJobs {
        var u :| u in done && PaysFor(st, u, j);
        assert u in done + {t};
      } else if j in jobs {
        assert PaysFor(st, t, j);
      }
    }
    forall u | u in done
      ensures ConsumesApart(st, t, u) && ConsumesApart(st, u, t)
    {
      if TipConsumed(st, u) {
        assert PaysFor(st, u, st.approvals[st.tokens[u]].scope.jobId);
      }
    }
  }

  lemma PaidTwice(st: Store, done: set<nat>, consumedJobs: set<Text>, t: nat)
    requires SettledSoFar(st, done, consumedJobs) && t !in done && TipConsumed(st, t)
    requires st.approvals[st.tokens[t]].scope.jobId in consumedJobs
    ensures !ApprovalsConsistent(st)
  {
    hide HistoryOf, ConsumedBound, RecordValid;
    var u :| u in done && PaysFor(st, u, st.approvals[st.tokens[t]].scope.jobId);
    assert !ConsumesApart(st, t, u);
  }

  lemma AllSettled(st: Store, consumedJobs: set<Text>)
    requires forall h :: h in st.approvals ==> RecordValid(h, st.approvals[h]) && st.approvals[h].token in st.tokens
    requires SettledSoFar(st, st.tokens.Keys, consumedJobs)
    ensures ApprovalsConsistent(st)
  {
    hide HistoryOf, ConsumedBound, RecordValid;
    assert forall t :: t in st.tokens ==> TokenSettled(st, t);
  }

  lemma KnownTip(st: Store, t: nat)
    requires t in st.tokens && HistoryOf(st.approvals, t, st.tokens[t])
    ensures st.tokens[t] in st.approvals
  {
  }

  lemma HashesAreKeys(approvals: map<RecordHash, ApprovalRow>)
    requires forall h :: h in approvals ==> RecordValid(h, approvals[h])
    ensures forall h :: h in approvals ==> h == approvals[h].Hash()
  {
  }

  /** Tokens with records and tokens with pointers must be the same. */
  lemma TokensAreKnown(st: Store, records: map<nat, set<RecordHash>>)
    requires forall t :: t in records ==> records[t] == History(st.approvals, t) && records[t] != {}
    requires forall h :: h in st.approvals ==> st.approvals[h].token in records
    ensures ApprovalsConsistent(st) ==> records.Keys == st.tokens.Keys
  {
    hide RecordValid, ConsumedBound;
    if ApprovalsConsistent(st) {
      forall t
        ensures t in records <==> t in st.tokens
      {
        if t in records {
          var h :| h in records[t];
          assert st.approvals[h].token == t;
        }
        if t in st.tokens {
          assert HistoryOf(st.approvals, t, st.tokens[t]);
        }
      }
    }
  }

  // ---------------------------------------------------------------- tables against the log

  /** The issuances of every handoff, in one pass over the log. */
  method GroupIssuances(events: seq<Event>) returns (issued: map<(Text, Digest), seq<Event>>)
    ensures forall k: (Text, Digest) :: Issuances(events, k.0, k.1) == if k in issued then issued[k] else []
  {
    issued := map[];
    for i := 0 to |events|
      invariant forall k: (Text, Digest) :: Issuances(events[..i], k.0, k.1) == if k in issued then issued[k] else []
    {
      var e := events[i];
      ghost var before := issued;
      var key := (e.jobId, e.digest);
      if e.action == HandoffIssued {
        issued := issued[key := (if key in issued then issued[key] else []) + [e]];
      }
      assert events[..i + 1][..i] == events[..i];
      forall k: (Text, Digest)
        ensures Issuances(events[..i + 1], k.0, k.1) == if k in issued then issued[k] else []
      {
        assert Issuances(events[..i], k.0, k.1) == if k in before then before[k] else [];
      }
    }
    assert events[..|events|] == events;
  }

  method CheckIssuances(w: World, st: Store) returns (ok: bool)
    ensures ok <==> IssuancesMatch(w, st)
  {
    var issued := GroupIssuances(st.events);
    var left := st.jobs.Keys;
    while left != {}
      invariant left <= st.jobs.Keys
      invariant forall id :: id in st.jobs && id !in left ==> IssuedOnce(w, st.events, id, st.jobs[id])
    {
      var id :| id in left;
      var key := (w.safe(id), st.jobs[id].digest);
      assert Issuances(st.events, key.0, key.1) == if key in issued then issued[key] else [];
      if key !in issued || issued[key] == [] || issued[key][0].apiSubject != st.jobs[id].subject || |issued[key]| != 1 {
        assert !IssuedOnce(w, st.events, id, st.jobs[id]);
        return false;
      }
      left := left - {id};
    }
    var pendingIssuances := CountEvents(st.events, PendingIssueKey);
    var ledgerIssuances := CountRows(st.jobs, LedgerIssueKeys(w, st.events));
    return pendingIssuances == ledgerIssuances;
  }

  method CheckBook(w: World, b: Book, st: Store) returns (ok: bool)
    ensures ok <==> BookBalances(w, b, st.jobs, st.events)
  {
    var expected := CountRows(st.jobs, JobKeys(w, b));
    var actual := CountEvents(st.events, EventKeys(b));
    return expected == actual;
  }

  method CheckAdmissions(w: World, st: Store) returns (ok: bool)
    ensures ok <==> AdmissionsMatch(w, st)
  {
    hide CountedOnce;
    var admitted := CountEvents(st.events, FullAdmissionKey);
    var expected := CountRows(st.jobs, JobKeys(w, Admissions));
    var once := EachOnce(admitted);
    if !once {
      return false;
    }
    once := EachOnce(expected);
    if !once {
      return false;
    }
    ok := CheckBook(w, Admissions, st);
  }

  method CheckReceipts(w: World, st: Store) returns (ok: bool)
    ensures ok <==> ApprovalsMatch(w, st)
  {
    hide ReceiptBinds;
    var expected := CountRows(st.approvals, ApprovalRowKey);
    var actual := CountEvents(st.events, ApprovalEventKey);
    if actual != expected {
      return false;
    }
    for i := 0 to |st.events|
      invariant forall k :: 0 <= k < i ==> ReceiptBinds(w, st.approvals, st.events[k])
    {
      if !ReceiptBinds(w, st.approvals, st.events[i]) {
        return false;
      }
    }
    return true;
  }

  /** `check_core_bindings`. */
  method CheckCoreBindings(w: World, st: Store) returns (ok: bool)
    ensures ok <==> CoreBindings(w, st)
  {
    hide IssuancesMatch, AdmissionsMatch, BookBalances, ApprovalsMatch;
    ok := CheckIssuances(w, st);
    if !ok {
      return;
    }
    ok := CheckAdmissions(w, st);
    if !ok {
      return;
    }
    ok := CheckBook(w, Executions, st);
    if !ok {
      return;
    }
    ok := CheckBook(w, Refusals, st);
    if !ok {
      return;
    }
    ok := CheckReceipts(w, st);
    if !ok {
      return;
    }
    var expected := CountRows(st.acceptances, AcceptanceKeys(w));
    var actual := CountEvents(st.events, ResultEventKey);
    return actual == expected;
  }

  /** The checks of a start before it commits the head, in order. */
  method OpeningChecks(w: World, st: Store) returns (ok: bool)
    ensures ok <==> Opens(w, st)
  {
    hide JobLedgerValid, ApprovalsConsistent, AcceptancesBound, CoreBindings;
    if !JobLedgerValid(st.jobs) {
      return false;
    }
    ok := CheckApprovals(st);
    if !ok {
      return;
    }
    if !AcceptancesBound(st.jobs, st.acceptances) {
      return false;
    }
    ok := CheckCoreBindings(w, st);
  }

  /** The checks of a start once its head is acknowledged, in order. */
  method ServingChecks(w: World, st: Store) returns (ok: bool)
    ensures ok <==> Serves(w, st)
  {
    hide JobLedgerValid, ApprovalsConsistent, AcceptancesHistorical, PendingConsistent;
    ok := CheckApprovals(st);
    if !ok {
      return;
    }
    ok := CheckPending(w, st);
    if !ok {
      return;
    }
    ok := CheckAcceptances(w, st);
  }
}
