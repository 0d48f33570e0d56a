/** The assumptions of all these theorems, met at once: keys, an audit log, a policy and a world over
    them in which a first job, with or without an approval, goes from request to success. */
module WholeService {
  import opened Prelude
  import opened Json
  import opened Wire
  import opened AuditChain
  import opened AuditEvents
  import opened Handoffs
  import opened Results
  import opened Contracts
  import opened ContractsExact
  import opened ResultWires
  import opened Ledger
  import opened Reconciliation
  import opened Service
  import opened ServiceWires
  import opened ServiceTheorems
  import opened ServiceHistory
  import opened ServiceProgress
  import opened StoredLog

  // ---------------------------------------------------------------- short texts fit their wires

  predicate Short(t: Text) { |t| <= 20 && PairFree(t) }

  lemma {:induction false} ZipCost(keys: seq<Text>, values: seq<Value>)
    requires |keys| == |values| && forall i :: 0 <= i < |keys| ==> |keys[i]| <= 20
    requires forall i :: 0 <= i < |values| ==> |Print(values[i])| <= 300
    ensures |PrintFields(Zip(keys, values))| <= 544 * |keys|
  {
    hide Print, PrintString;
    if keys == [] {
      NoFieldsCost();
    } else {
      ZipCost(keys[1..], values[1..]);
      EscapeAtMost(keys[0]);
      FieldAdds(keys[0], values[0], Zip(keys[1..], values[1..]));
    }
  }

  lemma ShortPrints(t: Text)
    requires |t| <= 20
    ensures |Print(Str(t))| <= 242 && |Print(PayloadValue(t))| <= 300 && |Print(Arr(Item(Str(t), NoItems)))| <= 244
  {
    hide PrintString, Ascii;
    EscapeAtMost(t);
    EscapeAtMost(Ascii("text"));
    var field := Field(Ascii("text"), Str(t), NoFields);
    FieldAdds(Ascii("text"), Str(t), NoFields);
  }

  lemma HexLength(t: Text, n: nat)
    requires IsHexText(t, n)
    ensures |Print(Str(t))| == n + 2
  {
    UnescapedPrints(t);
  }

  /** A handoff of short texts and one tool. */
  predicate ShortHandoff(h: Handoff) {
    && Short(h.jobId) && Short(h.userId) && Short(h.orchestratorId) && Short(h.workerAgentId) && Short(h.tier)
    && Short(h.sandboxProfile) && Short(h.policyVersion) && Short(h.text) && |h.tools| == 1 && Short(h.tools[0])
    && 0 < h.issuedAt <= MAX_TIME && 0 < h.expiresAt <= MAX_TIME + 300
  }

  lemma ShortValues(h: Handoff, payloadHash: Text, signature: Text)
    requires ShortHandoff(h) && IsHexText(payloadHash, 64) && IsHexText(signature, 128)
    ensures forall i :: 0 <= i < 15 ==> |Print(HandoffValues(h, payloadHash, signature)[i])| <= 300
  {
    hide Print, IsHexText, ShortHandoff, PayloadValue, TextItems, Contracts.Version, Contracts.ApprovalState;
    ShortStrings(h);
    HexLength(payloadHash, 64);
    HexLength(signature, 128);
    FixedTexts(h.pending);
    OneTool(h.tools);
  }

  lemma FixedTexts(pending: bool)
    ensures |Print(Str(Contracts.Version()))| <= 300 && |Print(Str(Contracts.ApprovalState(pending)))| <= 300
  {
    hide Print;
    ShortPrints(Contracts.Version());
    ShortPrints(Contracts.ApprovalState(pending));
  }

  lemma ExpiryCost(at: int)
    requires 0 < at <= MAX_TIME + 300
    ensures |Print(Num(at))| <= 10
  {
    DigitsMonotone(at, 9_999_999_999);
    TenDigits();
  }

  lemma ShortStrings(h: Handoff)
    requires ShortHandoff(h)
    ensures |Print(Str(h.jobId))| <= 300 && |Print(Str(h.userId))| <= 300 && |Print(Str(h.orchestratorId))| <= 300
    ensures |Print(Str(h.workerAgentId))| <= 300 && |Print(Str(h.tier))| <= 300 && |Print(Str(h.sandboxProfile))| <= 300
    ensures |Print(Str(h.policyVersion))| <= 300 && |Print(PayloadValue(h.text))| <= 300
    ensures |h.tools| == 1 && |Print(Arr(Item(Str(h.tools[0]), NoItems)))| <= 300
    ensures |Print(Num(h.issuedAt))| <= 300 && |Print(Num(h.expiresAt))| <= 300
  {
    hide Print, PairFree;
    ExpiryCost(h.issuedAt);
    ExpiryCost(h.expiresAt);
    ShortPrints(h.jobId);
    ShortPrints(h.userId);
    ShortPrints(h.orchestratorId);
    ShortPrints(h.workerAgentId);
    ShortPrints(h.tier);
    ShortPrints(h.sandboxProfile);
    ShortPrints(h.policyVersion);
    ShortPrints(h.text);
    ShortPrints(h.tools[0]);
  }

  lemma OneTool(tools: seq<Text>)
    requires |tools| == 1
    ensures TextItems(tools) == Item(Str(tools[0]), NoItems)
  {
    assert tools[1..] == [];
  }

  lemma ShortIsReadable(h: Handoff)
    requires ShortHandoff(h)
    ensures Readable(h)
  {
    hide PairFree;
    assert h.tools[1..] == [] && AllPairFree(h.tools[1..]);
  }

  lemma ShortKeys()
    ensures forall i :: 0 <= i < 15 ==> |HandoffKeys()[i]| <= 20
    ensures forall i :: 0 <= i < 10 ==> |ResultKeys()[i]| <= 20
  {
  }

  lemma ObjectCost(fields: Fields, n: nat)
    requires |PrintFields(fields)| <= 544 * n && n <= 15
    ensures |Print(Obj(fields))| <= MAX_WIRE_BYTES
  {
  }

  lemma ShortHandoffsIssue(k: Keyring, h: Handoff)
    requires KeysIdeal(k) && ShortHandoff(h)
    ensures HandoffOnWire(k, h)
  {
    hide ShortHandoff, Readable, Ideal, HandoffValues, HandoffKeys, Zip, PrintFields;
    var hash, signature := PayloadHash(k.c, h.text), Signature(k.c, h);
    HexTexts(k.c, h);
    ShortIsReadable(h);
    ShortValues(h, hash, signature);
    ShortKeys();
    ZipCost(HandoffKeys(), HandoffValues(h, hash, signature));
    ObjectCost(Zip(HandoffKeys(), HandoffValues(h, hash, signature)), 15);
  }

  predicate ShortWork(h: Handoff, output: Text) {
    Short(h.jobId) && Short(h.workerAgentId) && Short(output) && 0 < h.issuedAt <= MAX_TIME
  }

  lemma ShortResultValues(k: Keyring, h: Handoff, output: Text, signature: Text)
    requires KeysIdeal(k) && ShortWork(h, output) && IsHexText(signature, 128)
    ensures forall i :: 0 <= i < 10 ==> |Print(ResultValues(k.c, WorkOf(h, output), signature)[i])| <= 300
  {
    hide Print, PairFree, Ascii, HandoffWire;
    HexLength(HandoffDigest(k.c, h), 64);
    HexLength(k.c.sha256(Print(PayloadValue(output))), 64);
    HexLength(signature, 128);
    TimeCost(h.issuedAt);
    ShortPrints(h.jobId);
    ShortPrints(h.workerAgentId);
    ShortPrints(output);
    ShortPrints(ResultVersion());
    ShortPrints(ReasonText(WorkCompleted));
    ShortPrints(StatusText(Succeeded(output)));
  }

  lemma ShortResultsSign(k: Keyring, h: Handoff, output: Text)
    requires KeysIdeal(k) && ShortWork(h, output)
    ensures ResultOnWire(k, WorkOf(h, output))
  {
    hide Ideal, ResultValues, ResultKeys, Zip, PrintFields, PairFree;
    var r := WorkOf(h, output);
    var signature := ResultSignature(k.c, k.worker, r);
    SignatureIsHex(k.c, k.worker, r);
    ShortResultValues(k, h, output, signature);
    ShortKeys();
    ZipCost(ResultKeys(), ResultValues(k.c, r, signature));
    ObjectCost(Zip(ResultKeys(), ResultValues(k.c, r, signature)), 10);
  }

  // ---------------------------------------------------------------- one whole service

  /** A log to speak of: every event is rendered as the same one, at its own time. */
  function PlainLog(): Log {
    var name: Text := [97];
    Log(Scheme((i, e, p) => EmptyHash(), (b, s) => true), b => seq(128, _ => '0'),
        (e: Event) => AuditEvent(name, name, Ascii("gateway"), name, name, Ascii("HANDOFF_ISSUED"), Ascii("ALLOWED"), [65],
                                 name, name, seq(64, _ => 48), seq(64, _ => 48), e.occurredAt, None, None))
  }

  lemma LogsExist()
    ensures LogValid(PlainLog())
  {
    var name: Text := [97];
    UnescapedPrints(name);
    assert Identifier(name) && InstanceId(name) && IsReason([65]) && IsComponent(Ascii("gateway"));
    assert SignsFor(PlainLog().scheme, PlainLog().sign);
  }

  /** Only shapes are asked of signing and hashing here, so constants will do. */
  function PlainKeys(): Keyring {
    Keyring(Crypto(m => seq(128, _ => 48), m => seq(64, _ => 48)), WorkerKey(m => seq(128, _ => 48)))
  }

  /** One subject, whose jobs need an approval or do not. */
  function PlainPolicy(requiresApproval: bool): Policy {
    var name: Text := [97];
    Policy(name, name, 300, [Grant(name, name, name, name, [name], name, requiresApproval)])
  }

  function PlainWorld(requiresApproval: bool): World {
    WorldOver(PlainLog(), PlainKeys(), PlainPolicy(requiresApproval), t => t)
  }

  /** What the theorems ask of a world, of keys and of an audit log can be had together. */
  lemma WorldsExist(requiresApproval: bool)
    ensures LogValid(PlainLog()) && KeysIdeal(PlainKeys())
    ensures WorldValid(PlainWorld(requiresApproval)) && WiredBy(PlainWorld(requiresApproval), PlainKeys())
  {
    hide LogValid, WorldValid, WiredBy;
    LogsExist();
    var policy := PlainPolicy(requiresApproval);
    assert GrantValid(policy.grants[0]);
    WorldOverValid(PlainLog(), PlainKeys(), policy, t => t);
  }

  lemma {:induction false} OctetsAtMost(t: Text)
    ensures Octets(t) <= 4 * |t|
  {
    if t != [] {
      OctetsAtMost(t[1..]);
    }
  }

  /** The handoff of a first job here. */
  function PlainHandoff(requiresApproval: bool, jobId: Text, text: Text, at: int): Handoff {
    Issued(PlainPolicy(requiresApproval), PlainPolicy(requiresApproval).grants[0], jobId, text, at)
  }

  /** Its life: an instance starts, and the job is driven through it. */
  function PlainRun(requiresApproval: bool, jobId: Text, text: Text, at: int, output: Text): seq<Move> {
    var name: Text := [97];
    [Launch(0, Answered)]
    + if requiresApproval then ApprovedJob(0, 0, name, jobId, text, at, Consent([98], [98], 0, 60), output)
      else DirectJob(0, 0, name, jobId, text, at, output)
  }

  lemma PlainJobFits(requiresApproval: bool, jobId: Text, text: Text, at: int, output: Text)
    requires Short(jobId) && Short(text) && Short(output) && InTime(at)
    ensures var h := PlainHandoff(requiresApproval, jobId, text, at);
            && PlainWorld(requiresApproval).issues(h) && PlainWorld(requiresApproval).signs(WorkOf(h, output))
            && (jobId != [] ==> JobIdOk(jobId))
  {
    hide HandoffOnWire, ResultOnWire, LogFits;
    var h := PlainHandoff(requiresApproval, jobId, text, at);
    WorldsExist(requiresApproval);
    ShortHandoffsIssue(PlainKeys(), h);
    ShortResultsSign(PlainKeys(), h, output);
    OctetsAtMost(jobId);
  }

  /** Any short text, as a first job with or without an approval, comes back answered. */
  lemma FirstJobSucceeds(requiresApproval: bool, jobId: Text, text: Text, at: int, output: Text)
    requires Short(jobId) && Short(text) && Short(output) && jobId != [] && text != [] && output != []
    requires InTime(at) && at + 300 <= MAX_TIME
    ensures PlainHandoff(requiresApproval, jobId, text, at) in
            Run(PlainWorld(requiresApproval), PlainRun(requiresApproval, jobId, text, at, output)).told
  {
    hide Run, WorldValid, LogValid, Short, JobIdOk, RoomFor, WorldOver;
    var name: Text := [97];
    var w := PlainWorld(requiresApproval);
    var up := [Launch(0, Answered)];
    WorldsExist(requiresApproval);
    PlainJobFits(requiresApproval, jobId, text, at, output);
    PlainGrant(requiresApproval);
    FirstLaunch(w, up);
    RunHasRoom(PlainLog(), PlainKeys(), PlainPolicy(requiresApproval), t => t, up, 5);
    if requiresApproval {
      NoneWait(at);
      ApprovedJobSucceeds(w, up, 0, 0, name, jobId, text, at, Consent([98], [98], 0, 60), output);
    } else {
      RunHasRoom(PlainLog(), PlainKeys(), PlainPolicy(requiresApproval), t => t, up, 4);
      FreshJobSucceeds(w, up, 0, 0, name, jobId, text, at, output);
    }
  }

  /** And the run that shuts the service out is one of this world's. */
  lemma LastSecondHappens(jobId: Text, text: Text, i: nat, start: Ack, after: seq<Move>)
    requires Short(jobId) && Short(text) && jobId != [] && text != []
    ensures var w := PlainWorld(true);
            var s := Run(w, LastSecond([97], jobId, text) + after).shared;
            !Reconciles(w, s.store) && Launched(w, s, i, start) == s
  {
    hide Run, WorldValid, LogValid, Short, JobIdOk, RoomFor, WorldOver, Launched, Reconciles;
    var w := PlainWorld(true);
    WorldsExist(true);
    NothingIsShort();
    PlainJobFits(true, jobId, text, MAX_TIME, []);
    PlainGrant(true);
    NothingRan(w);
    RunHasRoom(PlainLog(), PlainKeys(), PlainPolicy(true), t => t, [], 1);
    LastSecondShutsOut(w, [97], jobId, text, i, start, after);
  }

  lemma NothingIsShort()
    ensures Short([])
  {
  }

  lemma NothingRan(w: World)
    ensures Run(w, []).shared.store == EMPTY_STORE
  {
  }

  lemma PlainGrant(requiresApproval: bool)
    ensures PlainWorld(requiresApproval).policy == PlainPolicy(requiresApproval)
    ensures GrantFor(PlainPolicy(requiresApproval).grants, [97]) == Some(PlainPolicy(requiresApproval).grants[0])
  {
  }
}
