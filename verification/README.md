# GeniusNew, verified

A Dafny 4.11 model of the zero-trust job service in `geniusnew/`, with proofs of what its protocols
promise across crashes, restarts and concurrent instances. `dafny verify dfyconfig.toml` checks all
of it.

## What is modelled

- **The durable, audited job lifecycle.** `Ledger` holds the five tables and the event log as one
  value and every transaction as a function on it; `Reconciliation` states what a start demands;
  `LedgerInvariant`, `LedgerSteps` and `Reopening` prove that each transaction keeps an invariant from
  which reconciliation follows. `Service` makes a transition system of it: any number of instances,
  each request driven step by step, with lost acknowledgements, crashes, restarts, late deliveries and
  clocks that step back. `ServiceInvariant`, `ServiceSafety` and `ServiceRuns` carry the invariant
  through every step, `ServiceTheorems` states what follows for every run, `OneLiveGrant` does the same
  for approval tokens, `ServiceHistory` says what a run must have contained for its store to look as it
  does, `ServiceLag` how far the anchor can fall behind, and `ServiceProgress` that jobs do succeed.
  `ServiceWires` shows that the handoffs and results of the lifecycle are those of the wires, and
  `WholeService` puts keys, log, policy and lifecycle together.
- **The same stores as they run.** `Database` writes row by row inside one transaction that commits
  with its event or rolls back; `StartChecks` is the reconciliation as loops and counters; `Wiring` is
  one instance appending and anchoring. Each method is proved against the functions above.
  `StartLaws` says in the tables' own terms what a successful start has established, and `LedgerRecords`
  what every transaction logs and demands.
- **The hash chain and the anchor.** `AuditChain` has full and incremental verification and the
  in-memory anchor; `AnchorState` its append-only state file and server; `AuditEvents`, `AuditStore`
  and `StoreBounds` the stored log and the bounds that keep it usable; `StoredLog` shows that over every
  run of the service this is the log its lifecycle speaks of.
- **The seccomp filter generator** (`Seccomp`), against a classic BPF machine.
- **Canonical wire contracts.** `Json`, `JsonRoundTrip`, `Wire` and `WireContract` are printer, parser
  and depth scanner (sections 7 and 9 of RFC 8259); `Handoffs`, `Contracts` and `ContractsExact` are
  `issue`, `validate` and `validate_pending` on top; `Results` and `ResultWires` are `produce` and `accept`,
  as values and as bytes; `WireFields` spells both wires out field by field.
- **The token bucket** (`TokenBucket`), over reals, on any clock.
- **Workers.** `WorkerRunner` is a run under its contract and deadline, `WorkerLease` the host-wide lease
  around a worker of the socket-activated service. `FrameIdentity` is descriptor ownership, `RuntimePath` the symlink-following
  walker and the tree traversal, against pathname resolution as in section 4.13 of POSIX.1-2017 Base
  Definitions.
- `Approvals` is the in-memory approval store; `Bags` the counters; `Prelude` shared vocabulary.

## Assumptions

- SHA-256 is a parameter that yields digests. Where descent is at stake, no two of the records that the
  theorem is about collide; the digest of a handoff, an approval record or a result stands for its
  preimage.
- Signatures are ideal and signing is deterministic, as section 5.1.6 of RFC 8032 has it: what the
  holder of a key signs verifies, and a wire verifies only if it was signed.
- A database transaction is one atomic step. The triggers around an acceptance are taken as
  `geniusnew/database.py:388-389` describes them. SQL, locks and roles do not appear.
- Job ids are fresh for every submission, as `geniusnew/http_entry.py:328` mints them. A reused id would
  be issued twice in the log before the ledger refuses it, which reconciliation does not allow.
- What the network, the disk, the kernel, the clock and the worker do is a parameter of each step.

## Where the code does less than it promises

- `PostgresPendingJobs.add` does not bound a handoff's expiry by the end of the audit clock
  (4102444800), and `_check_job_ledger` does. A job queued for approval within its lifetime of that
  second commits a row that every later start refuses. `LateExactlyWhenPendedLate` gives the exact
  condition, `LastSecondShutsOut` the run, and `ReopensExactly` shows that nothing else in the store ever
  prevents a start.
- Printing cannot tell two adjacent lone surrogates from the character they encode.
  `ParseInvertsPrint` gives the exact condition and `PairComesBackJoined` an example. Byte identity of
  wires is not affected (`MeaningDeterminesBytes`), and an issued or signed wire comes back with its text
  joined; but one whose job id or policy holds such a pair is issued and then never accepted
  (`IssuedIsAcceptedOnce`, `SignedWireTakenInTime`).
- `WorkerRunner.execute` has a branch that signs PAYLOAD_MUTATED, but computing the digest to compare with
  already raises on a changed payload, so that reason is never signed, nor is HANDOFF_EXPIRED
  (`SignedAnswerIsTaken`): such a run leaves no signed answer.

## Model

| member | source | states |
|---|---|---|
| AuditChain.VerifyLinks | geniusnew/audit_chain.py:432-442 | the loop over records answers exactly whether every record stands at its position, links to the one before and carries its own hash |
| AuditChain.Verify | geniusnew/audit_chain.py:421-463 | full verification is exact: the head is valid, the records are exactly the chain it signs, and an anchor's commitment, if given, is continued |
| AuditChain.VerifyExtension | geniusnew/audit_chain.py:483-517 | incremental verification is exact: a bounded suffix that continues a known count and hash and ends in the signed head |
| AuditChain.LinkedConcat | geniusnew/audit_chain.py:501-512 | a chain splits into two linked parts at any point, and two linked parts compose |
| AuditChain.HistoryDetermined | geniusnew/audit_chain.py:128-133 | backward induction: equal record hashes at a position mean equal histories up to it, unless two of the records collide |
| AuditChain.ChainDetermined | geniusnew/audit_chain.py:203-226 | a commitment stands for at most one chain |
| AuditChain.CommitMeansPrefix | geniusnew/audit_chain.py:248-281 | a commitment means "prefix of", not "shorter than": a full commit is taken iff the records verify and contain the committed chain |
| AuditChain.DeltaRefinesCommit | geniusnew/audit_chain.py:283-314 | the fast form refines the slow one: a delta is taken iff it holds at most 8192 records and the full commit of chain plus delta is, with the same new state |
| AuditChain.ExtensionsComposeAndSplit | geniusnew/audit_chain.py:466-517 | verified extensions compose through any signed head between them, and split there |
| AuditChain.AuditAnchor.CommitChain | geniusnew/audit_chain.py:248-281 | the anchor's fields after a commit, and its answer, are those of the specification; a refusal moves nothing |
| AuditChain.AuditAnchor.CommitDelta | geniusnew/audit_chain.py:283-314 | a delta is taken iff it verifies against its base and the anchor is still there or already where the delta leads; a refusal moves nothing |
| AuditChain.AuditAnchor.Resume | geniusnew/audit_chain.py:228-242 | a resumed anchor stands exactly where a verified head says |
| AuditChain.StepExtends | geniusnew/audit_chain.py:228-314 | every full commit, delta commit (its base possibly stale) and restart leaves a chain that extends the one before |
| AuditChain.RunDescribesAChain | geniusnew/audit_chain.py:228-314 | after every run the anchor stands for an actual chain, and its state file for the same one |
| AuditChain.CommittedChainsExtend | geniusnew/audit_chain.py:228-314 | over every run, with deltas interleaved between base read and apply, what was committed earlier is a prefix of what is committed later |
| AuditChain.SnapshotTaken | geniusnew/audit_chain.py:366-372 | a snapshot of a log that goes on from what is committed is always taken, a shorter one never |
| AuditChain.SnapshotCommits | geniusnew/audit_chain.py:248-281 | a snapshot is taken iff the committed log is a prefix of it; a snapshot of another history is refused unless two records collide |
| AuditChain.AuditChain.Append | geniusnew/audit_chain.py:341-358 | one record is added, and the stored chain stays the hash-linked chain of all events so far |
| AuditChain.AuditChain.Snapshot | geniusnew/audit_chain.py:366-372 | what is signed is the exact chain, and an anchor that holds any prefix of it accepts |
| AnchorState.Load | geniusnew/anchor_process.py:232-260 | loading a state file checks every line, and answers what the specification of a readable file says |
| AnchorState.WholeFileLoads | geniusnew/anchor_process.py:232-260 | a file of whole canonical lines with strictly rising counts loads as its last head |
| AnchorState.LoadsExactly | geniusnew/anchor_process.py:232-260 | a file of at most 16 MiB loads as a commitment iff it is the lines of some verified heads of strictly rising counts and the last of them makes that commitment |
| AnchorState.HeadLineSpelled | geniusnew/anchor_process.py:227-229 | the line of a head, character for character |
| AnchorState.TornFileRefused | geniusnew/anchor_process.py:251-252 | any file that ends inside a line is refused |
| AnchorState.HeadReadsBack | geniusnew/anchor_process.py:172-175 | a head written as a line is read back as itself |
| AnchorState.AnchorServer.Start | geniusnew/anchor_process.py:353-357 | a start resumes from the file or refuses, and nothing else |
| AnchorState.AnchorServer.Answer | geniusnew/anchor_process.py:372-391 | one request: exactly when it is granted and what it answers, that a head that moves the anchor is written before the answer, and that a failed write ends the process unanswered |
| AnchorState.StepKeepsConsistent | geniusnew/anchor_process.py:308-315 | commits, failed or torn writes, kills and starts keep file, memory and answers consistent |
| AnchorState.NeverBehindAnAnswer | geniusnew/anchor_process.py:353-391 | after any run, a live process holds what its file loads to, and a start resumes at or after everything a client was ever told, or refuses |
| AnchorState.RefusesOnlyTornOrTooLarge | geniusnew/anchor_process.py:247-252 | a start is refused iff the file is torn or beyond its bound |
| Seccomp.PrologueDecides | geniusnew/isolation.py:282-297 | foreign architecture and x32 numbers are killed, setting a thread name is EPERM, everything else reaches the list with the number loaded |
| Seccomp.KillListDecides | geniusnew/isolation.py:298-299 | for every list, each listed number is killed and every other number falls through to the end |
| Seccomp.EpilogueDecides | geniusnew/isolation.py:300-308 | clone3 is ENOSYS, clone without CLONE_THREAD is killed, all else is allowed |
| Seccomp.FilterDecides | geniusnew/isolation.py:269-309 | the whole emitted program, run on any call, returns the decision of the ordered table |
| Seccomp.TableOnX86 | geniusnew/isolation.py:81-95 | the table for x86_64 in literal numbers: every call's action word, with bit 16 of the clone flags as the thread bit |
| Seccomp.X86Filter | geniusnew/isolation.py:269-309 | the bytes for x86_64 answer every call literally: EPERM for native prctl(PR_SET_NAME), ENOSYS for native clone3, allowed iff native, not listed and, if clone, making a thread, killed otherwise |
| Seccomp.InstructionRoundTrip | geniusnew/isolation.py:265-266 | the eight packed bytes decode to the instruction they encode |
| Seccomp.ProgramRoundTrip | geniusnew/isolation.py:309 | the joined bytes decode to the same program |
| Seccomp.ProcessFilter | geniusnew/isolation.py:269-309 | for every kill list, the generated bytes decode to a program that jumps only forward inside itself and returns the table's decision on every call; the loads, the x32, thread name and clone tests and the two ends are given byte by byte |
| TokenBucket.TokensBelowEveryWindow | geniusnew/http_entry.py:263-283 | tokens left never exceed what any window of the call history would still allow |
| TokenBucket.LatestIsGreatest | geniusnew/http_entry.py:276-279 | the clock a bucket goes by is the greatest reading so far |
| TokenBucket.SomeWindowIsTight | geniusnew/http_entry.py:263-283 | and some window is exhausted exactly as far as the tokens say |
| TokenBucket.GrantedExactly | geniusnew/http_entry.py:274-283 | a call is granted iff for every window ending in it the grants plus one stay within burst plus rate times elapsed running-maximum time: nothing is refused needlessly, also when the clock steps back |
| TokenBucket.EveryWindowIsBounded | geniusnew/http_entry.py:263-283 | no window of calls is ever granted more than the burst plus the rate times the time its running-maximum clock went on |
| TokenBucket.Buckets.Take | geniusnew/http_entry.py:274-283 | a subject's grants depend on its own readings only, and no other subject's bucket changes |
| JsonRoundTrip.ReadsBack | geniusnew/contracts.py:84-95 | whatever follows, a printed value is parsed back whole, with its surrogate pairs joined |
| JsonRoundTrip.ParseInvertsPrint | geniusnew/contracts.py:84-95 | parsing inverts printing exactly on the values without an adjacent surrogate pair |
| JsonRoundTrip.PrintsAgreeExactly | geniusnew/contracts.py:84-95 | two values print the same iff they are the same once their surrogate pairs are joined |
| JsonRoundTrip.PairComesBackJoined | geniusnew/contracts.py:84-95 | the concrete value that does not come back: two lone surrogates side by side return as one character |
| JsonRoundTrip.ParsedIntsFit | geniusnew/contracts.py:350-356 | no integer that was parsed is longer than the interpreter's digit limit |
| JsonRoundTrip.PrintIsPrintable | geniusnew/contracts.py:84-95 | a print is one line of printable ASCII |
| Json.EscapesSpelled | geniusnew/contracts.py:84-95 | the seven short escapes, printable ASCII as itself, and every other code point as the \u escapes of its UTF-16 units |
| Json.UnitSpelled | geniusnew/contracts.py:84-95 | a code unit in four lower-case hexadecimal digits, highest first |
| Json.ScalarsSpelled | geniusnew/contracts.py:84-95 | the three words of JSON, and a text between its quotes |
| Json.ArraysSpelled | geniusnew/contracts.py:84-95 | items follow each other in brackets with one comma and nothing else between |
| Json.ObjectsSpelled | geniusnew/contracts.py:84-95 | fields are key, colon and value, in braces with one comma and nothing else between |
| Wire.WireDepth | geniusnew/contracts.py:289-308 | the scanning loop computes the deepest level its state machine reaches |
| Wire.ScanPrinted | geniusnew/contracts.py:289-308 | scanning a printed value returns to the depth it started from, whatever brackets, quotes and escapes its strings hold |
| Wire.DepthOfPrint | geniusnew/contracts.py:289-308 | on a printed value the scanner finds exactly the structural nesting depth |
| WireContract.DecodeWire | geniusnew/contracts.py:311-363 | the checks in order accept exactly what the specification of a contract wire accepts |
| WireContract.SortingSorts | geniusnew/contracts.py:84-95 | printing puts every object's keys in order at every level |
| WireContract.DecodeAcceptsExactlyPrints | geniusnew/contracts.py:311-363 | a wire is accepted as a value iff it is that value's print, at most 16384 bytes and four levels deep, and the value has the contract's keys |
| WireContract.MeaningDeterminesBytes | geniusnew/contracts.py:311-363 | two accepted wires with the same meaning are the same bytes |
| ContractsExact.AcceptedFields | geniusnew/contracts.py:370-419 | whatever passes every field check is the object of a trusted, current handoff with its own hash and signature |
| ContractsExact.IssuedFieldsAccepted | geniusnew/contracts.py:370-419 | the object of a trusted, current handoff passes every field check |
| ContractsExact.FromWireExactly | geniusnew/contracts.py:370-419 | a wire is taken iff it is one the issuer emits for this subject, job and policy, it is current, and pending only where that is allowed |
| ContractsExact.ValidatorsAcceptExactlyIssued | geniusnew/contracts.py:454-471 | the two validators together accept exactly the issued wires while current, and the grant's approval requirement decides which of the two |
| ContractsExact.IssuedIsAcceptedOnce | geniusnew/contracts.py:422-451 | what becomes of every issued wire: it is accepted at now iff t <= now < t + ttl and neither the job id nor a policy text holds a surrogate pair, by the one validator its grant names and never the other, as the issued handoff with its text's pairs joined; None from both otherwise |
| ContractsExact.JoinedWire | geniusnew/contracts.py:84-95 | issuing cannot tell a payload text from the one with its surrogate pairs joined: same digest, signature and bytes |
| ContractsExact.SameWireSameHandoff | geniusnew/contracts.py:422-451 | one wire, one handoff: issue time and text are determined by the bytes |
| WireFields.IssuedFields | geniusnew/contracts.py:422-451 | an issued wire is an object whose fifteen named fields are the policy's facts for that subject, its payload's digest, and a signature over everything else |
| WireFields.IssuesWhen | geniusnew/contracts.py:422-451 | a handoff is issued iff the subject has a grant, job and text are not empty, the times print and the wire is within its bound |
| WireFields.ValidatedFacts | geniusnew/contracts.py:370-471 | what either validator returns is the policy's facts field by field, current, with only issue time and text from the wire |
| Results.AcceptedExactlyInTime | geniusnew/results.py:355-426 | a result signed at d is accepted at t iff d <= t < expires, and only for its own handoff |
| Results.SignedIsAcceptable | geniusnew/results.py:302-352 | signing refuses exactly what acceptance could never take |
| ResultWires.AcceptWire | geniusnew/results.py:355-426 | decoding and checking a result wire answers exactly what the specification of acceptance says |
| ResultWires.AcceptedObject | geniusnew/results.py:366-418 | whatever passes every check is the object of an acceptable result with its own digests and signature |
| ResultWires.SignedObjectAccepted | geniusnew/results.py:332-352 | the object of an acceptable result passes every check |
| ResultWires.AcceptedExactlyAsSigned | geniusnew/results.py:302-426 | a wire is accepted as a result of this handoff iff it is the wire the worker signs for that result and the result is acceptable now |
| ResultWires.SignedWireTakenInTime | geniusnew/results.py:302-426 | what becomes of every wire signed at d: it is accepted at t iff d <= t < expires and the handoff's job and worker ids hold no surrogate pair, as the signed result with its output's pairs joined; None otherwise |
| WireFields.SignedFields | geniusnew/results.py:302-352 | a signed wire names its job, worker, handoff digest and time, has an output and its digest iff it succeeded, and is signed over everything else |
| WireFields.SignsWhen | geniusnew/results.py:321-330 | before its wire is checked, a worker signs iff the handoff is current, the clock is within 4102444800 and a success has an output, and what it signs is acceptable at once |
| WireFields.ReasonsSpelled | geniusnew/results.py:91-100 | the eight codes |
| WireFields.ReasonsClosed | geniusnew/results.py:91-100 | the reason codes read back are exactly those that are written |
| WorkerRunner.Execute | geniusnew/workers.py:399-469 | the checks around the work, in order, answer exactly the specified wire or none |
| WorkerRunner.SignedAnswerIsTaken | geniusnew/workers.py:399-469 | whatever a runner signs is taken until the handoff expires, with a reason that says what the work did; a run past the deadline or with a changed payload is never signed, so two of the eight reasons never occur |
| WorkerRunner.AnsweredExactly | geniusnew/workers.py:399-469 | where failures can be signed at all, a run is answered iff it was admitted and, if the tool was granted, ended before the deadline with boundary and payload whole |
| Approvals.ApprovalStore.Grant | geniusnew/approvals.py:197-230 | the new record and every refusal are those of the specification |
| Approvals.ApprovalStore.Transition | geniusnew/approvals.py:244-273 | only a granted token of this exact scope in its time changes, to a successor linked by hash |
| Approvals.ApprovalStore.Consume | geniusnew/approvals.py:232-236 | consuming refines the specified step and needs an unexpired token |
| Approvals.ApprovalStore.Revoke | geniusnew/approvals.py:238-242 | revoking refines the specified step and works after expiry too |
| Approvals.EveryRecordLinked | geniusnew/approvals.py:244-273 | in every run each record is a granted root or the one terminal successor linked to it, within its time |
| Approvals.TerminalForever | geniusnew/approvals.py:258-259 | a spent or revoked token never changes again |
| Approvals.EndsOnce | geniusnew/approvals.py:232-273 | over every run each token is consumed or revoked at most once |
| LedgerSteps.IssueDirectKeeps | geniusnew/wiring.py:649-678 | recording a direct issuance keeps the ledger invariant |
| LedgerSteps.NoteKeeps | geniusnew/wiring.py:629-647 | recording a refusal or rejection keeps it and touches no row |
| LedgerSteps.AddPendingKeeps | geniusnew/database.py:635-662 | queueing a job for approval, with its issuance, keeps it |
| LedgerSteps.AdmitDirectKeeps | geniusnew/database.py:307-318 | reserving a direct job, with its admission, keeps it |
| LedgerSteps.GrantApprovalKeeps | geniusnew/database.py:726-765 | granting an approval, with its event, keeps it |
| LedgerSteps.AdmitApprovedKeeps | geniusnew/database.py:775-824 | consuming an approval, dropping the pending row and reserving the job in one transaction keeps it |
| LedgerSteps.CommitExecutionKeeps | geniusnew/database.py:320-332 | moving a reservation to execution, with its dispatch event, keeps it |
| LedgerSteps.NewAcceptanceHistorical | geniusnew/database.py:404-441 | the row an acceptance writes always passes the historical re-check of a later start |
| LedgerSteps.AcceptResultKeeps | geniusnew/database.py:370-402 | accepting a result and completing its job, with its event, keeps it |
| LedgerSteps.RefusePendingKeeps | geniusnew/database.py:690-705 | the terminal refusal of a waiting job, with its event, keeps it |
| Bags.RowBagRemove | geniusnew/audit_store.py:180-230 | a counter over a table's rows does not depend on the order they are read in |
| Bags.BalancedUpdate | geniusnew/audit_store.py:192-230 | a row that starts to be counted together with its event keeps table and log counters equal |
| LedgerInvariant.CompletedOnlyAccepted | geniusnew/database.py:224-234 | a job is completed iff a result for its handoff was accepted |
| Reopening.ReconcilesExactly | geniusnew/audit_store.py:149-283 | under the invariant, the whole start-up reconciliation of five tables against the log succeeds iff no job expires after the audit clock ends, and the checks before and after the head is committed fail on the same stores |
| Database.Tables.Reserve | geniusnew/database.py:307-318 | inserts exactly the reserved row, or leaves a burned id as it is |
| Database.Tables.ReserveAdmitted | geniusnew/database.py:282-305 | confirms a durable consumption only when record, pointer, scope and row all agree |
| Database.Tables.MarkExecution | geniusnew/database.py:320-332 | moves exactly this handoff's row, and only from RESERVED |
| Database.Tables.Add | geniusnew/database.py:635-662 | a pending job enters iff its wire is currently valid, the live queue has room and its id is fresh; what both tables then hold |
| Database.Tables.Peek | geniusnew/database.py:600-613 | returns the stored wire iff it is its ledger row's own issuance |
| Database.Tables.Refuse | geniusnew/database.py:690-705 | only this subject's pending job is refused, not before it was created; what both tables then hold |
| Database.Tables.Grant | geniusnew/database.py:726-765 | a grant enters iff its exact job waits within the audit clock, the ttl is 1 to 600, the token is new and no live grant has this scope; the stored record expires at the lesser of now + ttl and the handoff's expiry |
| Database.Tables.Consume | geniusnew/database.py:775-824 | exactly when a token may be consumed, and the four tables after it |
| Database.Tables.ReserveAcceptance | geniusnew/database.py:370-402 | one acceptance per handoff and only from EXECUTION_COMMITTED; the job is completed with it |
| Database.Tables.Mutate | geniusnew/wiring.py:184-199 | each mutation, run row by row, and its event together are the specified transaction |
| Database.Tables.Transact | geniusnew/wiring.py:184-199 | a transaction is its specification or nothing: a refusal anywhere rolls all tables and the log back |
| LedgerRecords.EachIsRecorded | geniusnew/wiring.py:553-811 | every transaction logs exactly one event: which action for which reason of which job, caller and time, on which receipt or result |
| LedgerRecords.EachDemands | geniusnew/wiring.py:649-811 | every transaction that moves a job demands a handoff of the policy's own facts for that subject that has not run out, of the kind the move is for, with its own evidence |
| StartChecks.CountRows | geniusnew/audit_store.py:197-200 | the loop over rows computes the table's counter |
| StartChecks.CountEvents | geniusnew/audit_store.py:192-196 | the loop over events computes the log's counter |
| StartChecks.EachOnce | geniusnew/audit_store.py:201-203 | the check on a counter's values answers exactly whether everything is counted once |
| StartChecks.GroupIssuances | geniusnew/audit_store.py:164-168 | one pass files every issuance under its job and digest, in order |
| StartChecks.CheckIssuances | geniusnew/audit_store.py:169-191 | answers exactly whether every row was issued once to its subject and pending issuances match pending rows |
| StartChecks.CheckAdmissions | geniusnew/audit_store.py:192-209 | answers exactly whether reserved rows and admissions match one to one |
| StartChecks.CheckReceipts | geniusnew/audit_store.py:231-268 | answers exactly whether approval records and approval events match and every receipt binds its job |
| StartChecks.CheckCoreBindings | geniusnew/audit_store.py:149-283 | the whole core reconciliation, run as loops and counters, answers exactly its specification, of which the `StartLaws` rows say what it lets through |
| StartChecks.GroupRecords | geniusnew/database.py:537-547 | one pass checks every approval record and files it under its token |
| StartChecks.CheckHistory | geniusnew/database.py:549-565 | counting roots and successors answers exactly whether a token's history is one granted root with at most one terminal successor and the pointer on the tip |
| StartChecks.CheckApprovals | geniusnew/database.py:537-583 | answers exactly whether every history is well formed and every consumed approval is bound to its own reserved job, no job twice |
| StartChecks.CheckPending | geniusnew/database.py:615-633 | answers exactly whether pending rows and pending states match and every stored wire is its row's issuance |
| StartChecks.CheckAcceptances | geniusnew/database.py:404-441 | answers exactly whether the job ledger is valid and every acceptance holds again at its own time |
| StartChecks.OpeningChecks | geniusnew/database.py:237-253 | the checks before the head is committed, in order, answer exactly whether the store opens: valid rows and histories, matched acceptances, and five tables against the log |
| StartChecks.ServingChecks | geniusnew/wiring.py:403-424 | the checks after the head was acknowledged, in order, answer exactly whether the durable stores can be served: histories, pending rows, and every acceptance again at its own time |
| StartLaws.AcceptancesWitnessed | geniusnew/audit_store.py:269-281 | whenever the core reconciliation succeeds, every acceptance has exactly one RESULT_ACCEPTED event of its job, digest, result and time, and every such event its acceptance |
| StartLaws.AdmissionsWitnessed | geniusnew/audit_store.py:192-209 | and every reserved job exactly one admission at its reservation time, and every admission exactly one such job |
| StartLaws.ExecutionsWitnessed | geniusnew/audit_store.py:210-220 | and every job past RESERVED exactly one dispatch, and every dispatch exactly one such job |
| StartLaws.RefusalsWitnessed | geniusnew/audit_store.py:221-230 | and of any job, digest and time as many refused jobs as terminal refusals in the log |
| StartLaws.IssuancesWitnessed | geniusnew/audit_store.py:161-191 | and every job exactly one issuance, to its own subject, and every issuance that awaits approval exactly one job |
| StartLaws.ApprovalsWitnessed | geniusnew/audit_store.py:231-268 | and every approval record exactly one event of its kind and time, and every event that rests on an approval such a record of the same job, handoff, owner and policy |
| StartLaws.JobsSound | geniusnew/database.py:205-221 | a store that opens has only well-formed job rows: bounded id, a subject, times in order within the audit clock |
| StartLaws.RecordsSound | geniusnew/database.py:511-565 | only approval records hashed over their own fields, in order within their handoff, each a granted root or the terminal successor its token points to |
| StartLaws.HistoriesApart | geniusnew/database.py:549-565 | no token with two roots or two successors |
| StartLaws.ConsumptionsSound | geniusnew/database.py:566-583 | and a consumed approval is the one its job was reserved on at that very time, with no other consumed for that job |
| StartLaws.CompletionsSound | geniusnew/database.py:224-234 | acceptances and completed jobs name each other |
| StartLaws.ResultsSound | geniusnew/database.py:404-441 | a store that is served holds only results that answer their still-revalidating handoff at the time they were accepted, when the job was completed |
| StartLaws.WaitingSound | geniusnew/database.py:615-633 | and a stored wire for exactly the jobs that await approval, each that row's own issuance |
| StartLaws.StartsOnlySound | geniusnew/wiring.py:392-424 | an instance comes up only on an answered commit of the whole log, over a store that passed every check before and after it |
| Wiring.AnchoredAudit.Commit | geniusnew/wiring.py:206-211 | one commit of the stored chain: the anchor moves to its end iff the request arrives and is taken, and it is acknowledged iff the answer arrives too |
| Wiring.AnchoredAudit.Recover | geniusnew/wiring.py:173-175 | an owed commit is repeated first, and only an acknowledged one clears the debt |
| Wiring.AnchoredAudit.Atomic | geniusnew/wiring.py:184-199 | one specified step of the shared state: nothing is written before an owed commit is answered, success only on an answered commit of the one transaction |
| Wiring.AnchoredAudit.Head | geniusnew/wiring.py:201-204 | the same for asking for the head |
| Wiring.AnchoredAudit.Start | geniusnew/wiring.py:392-424 | a store that does not open moves nothing; otherwise the head is committed, and an instance comes up iff that is acknowledged and the rest of the checks hold |
| Wiring.WaitingAlwaysPeeks | geniusnew/database.py:600-613 | in every reachable state a stored pending wire passes its own re-check |
| ServiceInvariant.ApplyKeeps | geniusnew/wiring.py:184-199 | every transaction of the service keeps the ledger invariant and only moves rows forward |
| ServiceInvariant.AtomicKeeps | geniusnew/wiring.py:184-199 | one anchored mutation keeps the shared invariant wherever it stops, and an acknowledgement means the anchor holds the whole log |
| ServiceInvariant.LaunchedKeeps | geniusnew/wiring.py:392-401 | a start keeps it, and succeeds when no job is late and its head is acknowledged |
| ServiceInvariant.LateKeeps | geniusnew/audit_chain.py:248-281 | a commit of an older snapshot delivered late changes nothing it should not |
| ServiceRuns.StepKeeps | geniusnew/wiring.py:594-811 | every step of any instance, crash, restart or late delivery keeps the invariant of the whole system and loses nothing recorded or anchored |
| ServiceRuns.RunKeeps | geniusnew/wiring.py:594-811 | the invariant holds in every state any run reaches |
| ServiceTheorems.ReopensExactly | geniusnew/database.py:205-221 | in every reachable state the start-up reconciliation succeeds, and an instance can be started, iff no job outlives the audit clock |
| ServiceTheorems.RunsAdvance | geniusnew/database.py:320-332 | over every continuation of a run, rows keep their identity and states only rise, events and anchored events stay |
| ServiceTheorems.LateExactlyWhenPendedLate | geniusnew/database.py:635-662 | a transaction brings in a late job iff it queues a pending job that expires after the audit clock: the one insertion without that bound |
| ServiceTheorems.LateForever | geniusnew/database.py:205-221 | once there is a late job, no start ever succeeds again |
| ServiceTheorems.LastSecondShutsOut | geniusnew/database.py:635-662 | the concrete run: one approval-bound job issued in the last second, with room for its event, leaves a store that no later start accepts |
| ServiceTheorems.WorkerCalledOnce | geniusnew/orchestrator.py:494-564 | over all runs the worker is called at most once per job id, and exactly once for every completed job |
| ServiceTheorems.WorkerOnlyAfterAnchored | geniusnew/orchestrator.py:531-555 | whenever a worker is called, the anchor already holds the job's HANDOFF_ADMITTED and EXECUTION_DISPATCHED |
| ServiceTheorems.SuccessOnlyAnchored | geniusnew/wiring.py:786-809 | a client is told of success only for a completed job whose worker was called once and whose RESULT_ACCEPTED is anchored |
| ServiceTheorems.ResultTakenExactly | geniusnew/verifier.py:220-266 | a worker's result is accepted iff it comes between dispatch and expiry, nothing was accepted for its handoff before, and the log has room |
| ServiceTheorems.AnchorStaysPrefix | geniusnew/wiring.py:154-211 | the anchor always stands for a prefix of the stored log, and what it stood for stays one |
| ServiceLag.LagIsBounded | geniusnew/wiring.py:164-211 | in every run the anchor lags by no more events than instances were ever live at once, less one for each instance that owes nothing, through lost answers, crashes, restarts and late deliveries |
| ServiceLag.OneInstanceLagsByOne | geniusnew/wiring.py:164-211 | with one instance at a time the anchor lags by at most one event, through lost answers, crashes and restarts |
| ServiceLag.NothingAppendedUnanchored | geniusnew/wiring.py:177-199 | so nothing is appended while an earlier event is not anchored |
| ServiceLag.AppendsOnlyAcknowledged | geniusnew/wiring.py:164-199 | any instance appends only when its own last commit was acknowledged, now or on recovery |
| ServiceLag.TwoInstancesLagByTwo | geniusnew/wiring.py:164-199 | from any caught-up state, any two transactions of two instances that owe nothing can leave two events unanchored: the second does not know of the first one's lost commit |
| ServiceLag.LagIsAttained | geniusnew/wiring.py:164-199 | the bound is exact: for every n there is a run, never more than n instances at once, that leaves n events unanchored |
| ServiceTheorems.OneTokenAdmits | geniusnew/database.py:775-824 | in every reachable state and at every instant at most one token admits a job, whatever the clocks did |
| ServiceTheorems.OneUnexpiredGrant | geniusnew/database.py:753-761 | at a time no earlier than their issue, at most one grant of a job is unexpired |
| ServiceTheorems.OneConsumedToken | geniusnew/database.py:537-583 | of all tokens ever granted at most one is consumed per job, and every history is a root with at most one successor |
| OneLiveGrant.ApplyKeepsApart | geniusnew/database.py:753-761 | no transaction lets the windows of two consumable grants of one job overlap |
| ServiceHistory.StepAttempts | geniusnew/wiring.py:184-199 | a step of the whole system leaves the store as it is or applies one transaction whole |
| ServiceHistory.NoWorkUnapproved | geniusnew/wiring.py:244-285 | in every run the worker is called for an approval-bound job only if someone other than its owner had asked to approve that very job |
| ServiceHistory.TokenAdmitsInTime | geniusnew/database.py:775-824 | over every run a token admits its job only within the lifetime its approver asked for, counted from the approval |
| ServiceHistory.QueueStaysBounded | geniusnew/database.py:645-653 | as long as the queue's clock does not fall, at most a thousand jobs wait unexpired, in every run |
| ServiceProgress.ApprovedJobSucceeds | geniusnew/wiring.py:649-811 | and so can a fresh approval-bound job, if the queue has room and anyone but its owner approves: queued, approved, presented, admitted, carried out, accepted |
| ServiceProgress.FreshJobSucceeds | geniusnew/wiring.py:649-811 | from every reachable state with an instance up and owing nothing, a fresh direct job can be driven to success |
| ServiceWires.IssuesExactly | geniusnew/wiring.py:722-734 | a request becomes a handoff in the lifecycle iff the issuer writes its wire within bounds and the service's own revalidation reads that handoff back |
| ServiceWires.AdmissibleExactly | geniusnew/wiring.py:831-844 | a handoff is admissible in the lifecycle iff revalidating its wire, by the validator the grant names, gives it back |
| ServiceWires.SignsExactly | geniusnew/results.py:302-352 | a worker's answer becomes a result in the lifecycle iff the worker signs a wire for it and that wire is accepted as that result |
| ServiceWires.AcceptsExactly | geniusnew/results.py:355-426 | a result answers a handoff in the lifecycle iff accepting its wire gives it back |
| WholeService.ShortHandoffsIssue | geniusnew/contracts.py:422-451 | under any keys, a handoff of short texts and one tool passes the wire bound |
| WholeService.WorldsExist | geniusnew/contracts.py:206-245 | keys, an audit log, a policy and a world over them that meet every assumption at once |
| WholeService.FirstJobSucceeds | geniusnew/wiring.py:649-811 | in that world every short first job, with or without an approval, goes from a start of the service to success |
| WholeService.LastSecondHappens | geniusnew/database.py:635-662 | and the run that shuts the service out for good is one of its runs |
| AuditEvents.EventSize | geniusnew/audit.py:254-305 | the serialized size of any event the field rules allow stays within the stored bound |
| AuditStore.StoredSnapshot | geniusnew/audit_store.py:59-87 | the loops over records and signed heads answer exactly whether the two tables form one verified chain with a head for every prefix |
| AuditStore.PostgresAuditChain.Read | geniusnew/audit_store.py:112-138 | a read succeeds iff sizes are within bounds and the tables form a verified chain, and returns it |
| AuditStore.PostgresAuditChain.Append | geniusnew/audit_store.py:367-389 | an append goes through iff the tables can be read and the new chain still fits the anchor; what both tables then hold |
| StoreBounds.AppendStaysReadable | geniusnew/audit_store.py:367-389 | the store is closed under append: what was readable stays readable, and the whole chain still fits one anchor frame |
| StoreBounds.StoreAlwaysReads | geniusnew/audit_store.py:112-138 | after any sequence of appends the log can be read and sent whole to the anchor |
| StoreBounds.FitsStored | geniusnew/audit_store.py:28-33 | passing the size check keeps the record count within what a read accepts |
| StoreBounds.StateFileFits | geniusnew/anchor_process.py:769-775 | head lines of strictly rising counts up to a checked head fit what a restart reads |
| StoreBounds.RefusesOnlyTorn | geniusnew/anchor_process.py:232-260 | when every commit passed its size check, a start is refused iff the file ends in a line cut off by a failed write |
| StoredLog.WorldOverValid | geniusnew/anchor_process.py:769-775 | the size check at append is one of the log bounds the service theorems are about, and the wire bounds of any keyring are bounds of its issuer and worker, for any rendering of lifecycle events as audit events |
| StoredLog.RoomExactly | geniusnew/audit_store.py:367-389 | there is room for one more event iff its append passes the size check |
| StoredLog.LogIsStored | geniusnew/audit_store.py:367-389 | over every run of the service, the audit tables hold exactly its log: each append went through and the result can be read back |
| StoredLog.LogsExactlyWhatAppends | geniusnew/audit_store.py:367-389 | in every reachable state an event is logged iff it is in time and the tables take it |
| StoreBounds.FewRecordsFit | geniusnew/anchor_process.py:769-775 | up to 7000 valid records pass the size check, whatever their events say |
| StoredLog.RunHasRoom | geniusnew/audit_store.py:367-389 | every reachable state of the service has room for as many events as its log lacks to 7000 |
| StoredLog.RowsAreRecords | geniusnew/audit_store.py:59-87 | the stored rows are the lifecycle's hash-linked records, rendered, and the last stored head signs them |
| StoredLog.AnchorsAlike | geniusnew/audit_store.py:297-303 | the anchor makes of the stored rows exactly what the service model says it makes of its log |
| FrameIdentity.Collect | geniusnew/worker_service.py:160-184 | one pass over the ancillary records owns every descriptor the kernel installed |
| FrameIdentity.FrameSender.Decide | geniusnew/worker_service.py:185-221 | the checks in order give the specified verdict, and only the binding descriptor leaves the owned list |
| FrameIdentity.FrameSender.Accept | geniusnew/worker_service.py:158-224 | data is accepted iff it is authentic: credentials of one process of the fixed user and group, the bound one, and one pidfd that names it, alive when it binds, or the sentinel after the sender's exit; end of stream iff it brings nothing, the zero credentials or the sender's; every descriptor received is closed but the one retained |
| FrameIdentity.DataJudgedExactly | geniusnew/worker_service.py:197-221 | a data fragment is accepted iff it carries exactly the two records of an authentic sender, and then the first one binds process and pidfd |
| FrameIdentity.EndJudgedExactly | geniusnew/worker_service.py:185-196 | the end of the stream is accepted iff a sender is bound and it carries no record, the zero credentials or the sender's own |
| FrameIdentity.OwnedExactly | geniusnew/worker_service.py:165-181 | the descriptors owned are the non-negative numbers in rights and pidfd records, each as often as it stands there |
| FrameIdentity.FrameSender.Close | geniusnew/worker_service.py:152-156 | closing releases the retained descriptor once, and nothing is left open |
| FrameIdentity.NothingLeaks | geniusnew/worker_service.py:143-224 | over every sequence of fragments each received descriptor is closed exactly once, but for the one retained |
| FrameIdentity.BoundStaysBound | geniusnew/worker_service.py:209-221 | a retained pidfd is never replaced while open, and a bound sender never changes |
| FrameIdentity.OneSender | geniusnew/worker_service.py:199-221 | over every run, each accepted data fragment carries the bound process's credentials with the fixed user and group; its live pidfd names that process, and a sentinel comes only after the retained sender exited |
| FrameIdentity.RetainedNamesSender | geniusnew/worker_service.py:209-216 | over every run, a retained pidfd came with a fragment at which the kernel said it named the bound process and that process was alive |
| WorkerLease.ServiceWorkerRunner.RunWorker | geniusnew/worker_service.py:1204-1254 | one call: refused while an earlier one is unconfirmed, the worker started only under the lease and only when idle, the lease kept unless the worker's end was confirmed, and the result given only then |
| WorkerLease.NeverTwoWorkers | geniusnew/worker_service.py:1204-1243 | over every interleaving of Core processes, calls, crashes and worker exits, no two workers are alive together and no two leases are open together |
| WorkerLease.StartsOnlyWhenIdle | geniusnew/worker_service.py:981-1016 | a worker is started only by a call that has found every earlier worker gone without trace |
| WorkerLease.ReleasedExactly | geniusnew/worker_service.py:1066-1085 | a lease is given up iff the authenticated worker ended in time and nothing is left of any worker |
| WorkerLease.UnconfirmedBlocks | geniusnew/worker_service.py:1239-1243 | once a runner keeps an unconfirmed lease, no Core starts another worker until that runner's process ends |
| RuntimePath.ResolveConcat | geniusnew/worker_service.py:412-424 | putting a link's target in front of the remaining path is resolving the target and then the rest |
| RuntimePath.RootControlled | geniusnew/worker_service.py:394-428 | the walker terminates, and succeeds iff every place that resolving the path looks at, through every link, is root-controlled and the path leads to the wanted kind of file |
| RuntimePath.CheckRuntimeTree | geniusnew/worker_service.py:430-447 | the traversal terminates on cyclic links; success means that along every path through the tree, whichever way a directory is reached, every place looked at through every link is root-controlled and the path leads to a file or directory; refusal that some reachable path is not so |

## Left out

- Ed25519, HMAC, SHA-256, Argon2 and key derivation: ideal functions here.
- SQL text, psycopg, privileges, migrations, advisory locks, LIMIT clauses and isolation levels: one transaction is one step.
- Dynamic type checks and error messages: values are typed, a refusal is `None` or `false`.
- UTF-8 decoding: a contract wire is ASCII, because it must equal its own print.
- WireContract.DecodeWire: the value space here has no floating-point numbers. `decode_wire` accepts one whose literal is its own canonical print, and the field checks of handoffs, results and anchor heads refuse it there; here decoding does.
- WireContract.DecodeAcceptsExactlyPrints: characterises the wires without floating-point numbers, for the same reason.
- Identifiers outside ASCII in a result: `hmac.compare_digest` raises on them, and minted job ids have none; the model compares them.
- Event fields that no reconciliation compares: trace id, actor, decision, payload hash, constitution version.
- Reason codes other than the ones reconciliation tells apart are numbered, and which refusal is recorded for which cause is not modelled: any live instance may record one at any time.
- The pre-check `dispatch_available` and the process-local job and acceptance ledgers: the durable ones decide.
- Routing to configured workers and tools (`Orchestrator.route`) and the one-use dispatch permit: a refused route records nothing, and the job row already decides who calls the worker.
- The byte loops `_recv_exact` and `_write_frame`, and worker text limits such as `_display_excerpt`: easy next to the rest.
- Revocation in the durable store: the service wires none. `Approvals` has it in memory.
- The one-live-grant claim for the in-memory `PendingJobs.decide`: the clock is read twice there.
- Decoding of a stored event's bytes: `AuditStore` holds the event of exact canonical bytes, and anything else as damaged.
- Two mounts of one directory inside a runtime tree: a directory is identified by its physical path.
- Process spawning, pipes, sockets, deadlines, Landlock, prctl, systemd and cgroup inspection: host I/O.
- WorkerRunner.Execute: a payload changed into another of the same digest, which an ideal SHA-256 does not have.
- The gap between a connection and the worker instance that systemd starts for it: in `WorkerLease` they are one step.
- The HTTP handler, CLI, configuration, advisory bridge, text statistics and demos: plumbing and heuristics.
- TokenBucket.Buckets.Take: floats are reals here, so rounding in the last place is not modelled.
