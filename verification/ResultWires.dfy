/** Result wires (geniusnew/results.py): what `produce` signs and `accept` takes, as bytes. Together
    they take exactly what was signed for the handoff, while it can still be taken. */
module ResultWires {
  import opened Prelude
  import opened Json
  import opened JsonRoundTrip
  import opened Wire
  import opened WireContract
  import opened Handoffs
  import opened Contracts
  import opened ContractsExact
  import opened Results

  // ---------------------------------------------------------------- keys

  function ResultKeyName(i: nat): string
    requires i < 10
  {
    match i
    case 0 => "handoff_sha256"
    case 1 => "job_id"
    case 2 => "output"
    case 3 => "output_sha256"
    case 4 => "produced_at"
    case 5 => "reason_code"
    case 6 => "signature"
    case 7 => "status"
    case 8 => "version"
    case _ => "worker_agent_id"
  }

  function ResultKeyText(i: nat): Text
    requires i < 10
  {
    Ascii(ResultKeyName(i))
  }

  function ResultKeys(): (keys: seq<Text>)
    ensures |keys| == 10 && forall i :: 0 <= i < 10 ==> keys[i] == ResultKeyText(i)
  {
    seq(10, i requires 0 <= i < 10 => ResultKeyText(i))
  }

  const SIGNED_AT := 6

  lemma OutputKeysRise()
    ensures Less(ResultKeyText(2), ResultKeyText(3))
  {
    var a, b := ResultKeyText(2), Ascii("_sha256");
    PrefixIsLess(a, b);
    var c := ResultKeyText(3);
    assert "output_sha256" == "output" + "_sha256";
    assert forall i :: 0 <= i < 13 ==> c[i] == (a + b)[i];
    assert a + b == c;
  }

  lemma ResultKeyRises(i: nat)
    requires i < 9
    ensures Less(ResultKeyText(i), ResultKeyText(i + 1))
  {
    if i == 2 {
      OutputKeysRise();
    } else if i == 6 {
      SecondDecides(ResultKeyText(6), ResultKeyText(7));
    } else {
      FirstDecides(ResultKeyText(i), ResultKeyText(i + 1));
    }
  }

  lemma ResultKeysRise()
    ensures KeysRise(ResultKeys())
  {
    var k := ResultKeys();
    forall i: nat | i + 1 < |k|
      ensures RisesAt(k, i)
    {
      ResultKeyRises(i);
    }
    RisingEverywhere(k);
  }

  // ---------------------------------------------------------------- the signed object

  /** The worker's key; `c` stays the handoff's. Both digest alike. */
  datatype WorkerKey = WorkerKey(sign: Text -> Text)

  ghost predicate WorkerIdeal(k: WorkerKey) { forall m :: IsHexText(k.sign(m), 128) }

  function ResultVersion(): Text { Ascii("geniusnew-result-v2") }

  function StatusText(s: Status): Text { if s.Succeeded? then Ascii("SUCCEEDED") else Ascii("FAILED") }

  function ReasonText(r: Reason): Text {
    match r
    case WorkCompleted => Ascii("WORK_COMPLETED")
    case ToolNotGranted => Ascii("TOOL_NOT_GRANTED")
    case WorkerFailed => Ascii("WORKER_FAILED")
    case OutputRejected => Ascii("OUTPUT_REJECTED")
    case PayloadMutated => Ascii("PAYLOAD_MUTATED")
    case HandoffExpired => Ascii("HANDOFF_EXPIRED")
    case ResourceExhausted => Ascii("RESOURCE_EXHAUSTED")
    case IsolationViolated => Ascii("ISOLATION_VIOLATED")
  }

  function ReadReason(t: Text): Option<Reason> {
    if t == ReasonText(WorkCompleted) then Some(WorkCompleted)
    else if t == ReasonText(ToolNotGranted) then Some(ToolNotGranted)
    else if t == ReasonText(WorkerFailed) then Some(WorkerFailed)
    else if t == ReasonText(OutputRejected) then Some(OutputRejected)
    else if t == ReasonText(PayloadMutated) then Some(PayloadMutated)
    else if t == ReasonText(HandoffExpired) then Some(HandoffExpired)
    else if t == ReasonText(ResourceExhausted) then Some(ResourceExhausted)
    else if t == ReasonText(IsolationViolated) then Some(IsolationViolated)
    else None
  }

  function OutputValue(s: Status): Value { if s.Succeeded? then PayloadValue(s.output) else Null }

  function OutputHash(c: Crypto, s: Status): Value {
    if s.Succeeded? then Str(c.sha256(Print(PayloadValue(s.output)))) else Null
  }

  /** `handoff_digest`: over the exact handoff artifact. */
  function HandoffDigest(c: Crypto, h: Handoff): Text { c.sha256(HandoffWire(c, h)) }

  function ResultValues(c: Crypto, r: Result, signature: Text): (v: seq<Value>)
    ensures |v| == 10
  {
    [ Str(HandoffDigest(c, r.digest.handoff)), Str(r.jobId), OutputValue(r.status), OutputHash(c, r.status),
      Num(r.producedAt), Str(ReasonText(r.reason)), Str(signature), Str(StatusText(r.status)), Str(ResultVersion()),
      Str(r.workerAgentId) ]
  }

  function ResultObject(c: Crypto, r: Result, signature: Text): Value { Obj(Zip(ResultKeys(), ResultValues(c, r, signature))) }

  /** Everything but the signature. */
  function ResultBody(c: Crypto, r: Result): Value {
    var keys, values := ResultKeys(), ResultValues(c, r, []);
    Obj(Zip(keys[..SIGNED_AT] + keys[SIGNED_AT + 1..], values[..SIGNED_AT] + values[SIGNED_AT + 1..]))
  }

  function ResultSignature(c: Crypto, k: WorkerKey, r: Result): Text { k.sign(Print(ResultBody(c, r))) }

  function ResultWire(c: Crypto, k: WorkerKey, r: Result): Text { Print(ResultObject(c, r, ResultSignature(c, k, r))) }

  /** `produce`, down to its self-check against the decoder. */
  function ProduceWire(c: Crypto, k: WorkerKey, h: Handoff, status: Status, reason: Reason, now: int): Option<Text> {
    match Produce(h, status, reason, now)
    case None => None
    case Some(r) =>
      var wire := ResultWire(c, k, r);
      PrintIsPrintable(ResultObject(c, r, ResultSignature(c, k, r)));
      if Decode(wire, KeySet(ResultKeys())).None? then None else Some(wire)
  }

  // ---------------------------------------------------------------- accepting

  predicate ResultTyped(v: seq<Value>) {
    && |v| == 10
    && NonEmptyText(v[0]) && IsHexText(v[0].s, 64) && NonEmptyText(v[1]) && v[4].Num?
    && NonEmptyText(v[5]) && ReadReason(v[5].s).Some? && NonEmptyText(v[6]) && NonEmptyText(v[7]) && NonEmptyText(v[8])
    && NonEmptyText(v[9])
  }

  /** The status with its output; `None` when they do not go together. */
  function ReadStatus(c: Crypto, v: seq<Value>): Option<Status>
    requires ResultTyped(v)
  {
    if v[7].s == StatusText(Succeeded([])) then
      match ReadPayload(v[2])
      case None => None
      case Some(output) => if v[3] == Str(c.sha256(Print(v[2]))) then Some(Succeeded(output)) else None
    else if v[7].s == StatusText(Failed) then (if v[2].Null? && v[3].Null? then Some(Failed) else None)
    else None
  }

  /** `accept`, check by check. */
  function AcceptObject(c: Crypto, k: WorkerKey, fields: Fields, h: Handoff, now: int): Option<Result> {
    var v := Values(fields);
    if !ResultTyped(v) then None
    else if !IsHexText(v[6].s, 128) || v[6].s != k.sign(Print(Obj(Without(fields, ResultKeyText(SIGNED_AT))))) then None
    else if v[8].s != ResultVersion() then None
    else if v[1].s != h.jobId || v[9].s != h.workerAgentId || v[0].s != HandoffDigest(c, h) then None
    else match ReadStatus(c, v)
    case None => None
    case Some(status) =>
      var at := v[4].n;
      if !(0 < at <= MAX_TIME) || at < h.issuedAt || at > now || at >= h.expiresAt || now >= h.expiresAt then None
      else Some(Result(h.jobId, h.workerAgentId, Sha256(h), status, ReadReason(v[5].s).value, at))
  }

  method AcceptWire(c: Crypto, k: WorkerKey, wire: seq<Byte>, h: Handoff, now: int) returns (r: Option<Result>)
    ensures r == Accepted(c, k, wire, h, now)
  {
    var value := DecodeWire(wire, KeySet(ResultKeys()));
    if value.None? || !value.value.Obj? {
      return None;
    }
    return AcceptObject(c, k, value.value.fields, h, now);
  }

  function Accepted(c: Crypto, k: WorkerKey, wire: seq<Byte>, h: Handoff, now: int): Option<Result> {
    match Decode(wire, KeySet(ResultKeys()))
    case Some(Obj(fields)) => AcceptObject(c, k, fields, h, now)
    case _ => None
  }

  // ---------------------------------------------------------------- what is written is read back

  lemma ReasonReadsBack(r: Reason)
    ensures ReadReason(ReasonText(r)) == Some(r) && ReasonText(r) != []
  {
    assert |ReasonText(WorkCompleted)| == 14 && |ReasonText(ToolNotGranted)| == 16 && |ReasonText(WorkerFailed)| == 13;
    assert |ReasonText(OutputRejected)| == 15 && |ReasonText(PayloadMutated)| == 15 && |ReasonText(HandoffExpired)| == 15;
    assert |ReasonText(ResourceExhausted)| == 18 && |ReasonText(IsolationViolated)| == 18;
    assert ReasonText(OutputRejected)[0] == 79 && ReasonText(PayloadMutated)[0] == 80 && ReasonText(HandoffExpired)[0] == 72;
    assert ReasonText(ResourceExhausted)[0] == 82 && ReasonText(IsolationViolated)[0] == 73;
  }

  lemma StatusTextsDiffer()
    ensures StatusText(Succeeded([])) != StatusText(Failed)
  {
    assert |StatusText(Succeeded([]))| == 9 && |StatusText(Failed)| == 6;
  }

  lemma PayloadInverts(v: Value)
    requires ReadPayload(v).Some?
    ensures PayloadValue(ReadPayload(v).value) == v && ReadPayload(v).value != []
  {
  }

  lemma StatusInverts(c: Crypto, v: seq<Value>)
    requires ResultTyped(v) && ReadStatus(c, v).Some?
    ensures var s := ReadStatus(c, v).value;
            && v[2] == OutputValue(s) && v[3] == OutputHash(c, s) && v[7].s == StatusText(s)
            && (s.Succeeded? ==> s.output != [])
  {
    if ReadPayload(v[2]).Some? {
      PayloadInverts(v[2]);
    }
  }

  lemma ReasonInverts(t: Text)
    requires ReadReason(t).Some?
    ensures ReasonText(ReadReason(t).value) == t
  {
  }

  lemma SignedResultPart(c: Crypto, r: Result, signature: Text)
    ensures Obj(Without(Zip(ResultKeys(), ResultValues(c, r, signature)), ResultKeyText(SIGNED_AT))) == ResultBody(c, r)
  {
    hide HandoffDigest, OutputValue, OutputHash, ReasonText, StatusText, ResultVersion, KeysRise, Zip, Without;
    var keys, values, bare := ResultKeys(), ResultValues(c, r, signature), ResultValues(c, r, []);
    ResultKeysRise();
    WithoutZip(keys, values, SIGNED_AT);
    DropAgreeing(values, bare, SIGNED_AT);
  }

  /** Whatever passes every check is the object of an acceptable result with its own signature. */
  lemma AcceptedObject(c: Crypto, k: WorkerKey, fields: Fields, h: Handoff, now: int, r: Result)
    requires |Values(fields)| == 10 && fields == Zip(ResultKeys(), Values(fields))
    requires AcceptObject(c, k, fields, h, now) == Some(r)
    ensures Obj(fields) == ResultObject(c, r, ResultSignature(c, k, r)) && Accepts(r, h, now)
  {
    hide Zip, Without, HandoffDigest, OutputValue, OutputHash, ResultVersion, ReadReason;
    var v := Values(fields);
    StatusInverts(c, v);
    ReasonInverts(v[5].s);
    assert v == ResultValues(c, r, v[6].s) by {
      var w := ResultValues(c, r, v[6].s);
      assert v[0] == w[0] && v[1] == w[1] && v[2] == w[2] && v[3] == w[3] && v[4] == w[4];
      assert v[5] == w[5] && v[6] == w[6] && v[7] == w[7] && v[8] == w[8] && v[9] == w[9];
    }
    SignedResultPart(c, r, v[6].s);
  }

  lemma StatusReadsBack(c: Crypto, v: seq<Value>, s: Status)
    requires ResultTyped(v) && v[2] == OutputValue(s) && v[3] == OutputHash(c, s) && v[7] == Str(StatusText(s))
    requires s.Succeeded? ==> s.output != []
    ensures ReadStatus(c, v) == Some(s)
  {
    StatusTextsDiffer();
  }

  lemma WrittenResultTyped(c: Crypto, r: Result, signature: Text)
    requires Contracts.Ideal(c) && IsHexText(signature, 128) && r.jobId != [] && r.workerAgentId != []
    ensures ResultTyped(ResultValues(c, r, signature))
  {
    ReasonReadsBack(r.reason);
    assert IsHexText(HandoffDigest(c, r.digest.handoff), 64);
    assert |ResultVersion()| == 19 && |StatusText(Failed)| == 6 && |StatusText(Succeeded([]))| == 9;
  }

  /** The object of an acceptable result passes every check. */
  lemma SignedObjectAccepted(c: Crypto, k: WorkerKey, h: Handoff, now: int, r: Result)
    requires Contracts.Ideal(c) && WorkerIdeal(k) && Accepts(r, h, now) && h.jobId != [] && h.workerAgentId != []
    ensures AcceptObject(c, k, ResultObject(c, r, ResultSignature(c, k, r)).fields, h, now) == Some(r)
  {
    hide Zip, Without, HandoffDigest, OutputValue, OutputHash, ReadReason, ReadStatus, ResultTyped;
    var signature := ResultSignature(c, k, r);
    var v := ResultValues(c, r, signature);
    assert IsHexText(signature, 128);
    ValuesOfZip(ResultKeys(), v);
    WrittenResultTyped(c, r, signature);
    SignedResultPart(c, r, signature);
    ReasonReadsBack(r.reason);
    StatusReadsBack(c, v, r.status);
  }

  // ---------------------------------------------------------------- which results have a wire

  predicate ResultReadable(r: Result) {
    && PairFree(r.jobId) && PairFree(r.workerAgentId) && (r.status.Succeeded? ==> PairFree(r.status.output))
  }

  lemma ResultValuesForm(c: Crypto, r: Result, signature: Text)
    requires Contracts.Ideal(c) && IsHexText(signature, 128)
    ensures var v := ResultValues(c, r, signature);
            && (forall i :: 0 <= i < 10 ==> Depth(v[i]) <= 1) && (forall i :: 0 <= i < 10 ==> Sorted(v[i]))
            && ((forall i :: 0 <= i < 10 ==> IntsFit(v[i])) <==> IntFits(r.producedAt))
  {
    hide PairFree, HandoffDigest;
    var v := ResultValues(c, r, signature);
    if r.status.Succeeded? {
      PayloadForm(r.status.output);
    }
    assert IntsFit(v[4]) == IntFits(r.producedAt);
  }

  lemma FixedTextsPairFree(c: Crypto, r: Result, signature: Text)
    requires Contracts.Ideal(c) && IsHexText(signature, 128)
    ensures PairFree(HandoffDigest(c, r.digest.handoff)) && PairFree(signature) && PairFree(ResultVersion())
    ensures PairFree(ReasonText(r.reason)) && PairFree(StatusText(r.status))
    ensures PairFreeValue(OutputHash(c, r.status))
  {
    hide PairFree;
    HexIsPairFree(HandoffDigest(c, r.digest.handoff), 64);
    HexIsPairFree(signature, 128);
    AsciiIsPairFree(ResultVersion());
    AsciiIsPairFree(ReasonText(r.reason));
    AsciiIsPairFree(StatusText(r.status));
    if r.status.Succeeded? {
      HexIsPairFree(c.sha256(Print(PayloadValue(r.status.output))), 64);
    }
  }

  lemma ResultValuesReadable(c: Crypto, r: Result, signature: Text)
    requires Contracts.Ideal(c) && IsHexText(signature, 128)
    ensures (forall i :: 0 <= i < 10 ==> PairFreeValue(ResultValues(c, r, signature)[i])) <==> ResultReadable(r)
  {
    hide PairFree, HandoffDigest, OutputHash, ResultVersion, StatusText;
    FixedTextsPairFree(c, r, signature);
    var v := ResultValues(c, r, signature);
    if r.status.Succeeded? {
      PayloadForm(r.status.output);
    }
    assert PairFreeValue(v[1]) == PairFree(r.jobId) && PairFreeValue(v[9]) == PairFree(r.workerAgentId);
    assert PairFreeValue(v[2]) == (r.status.Succeeded? ==> PairFree(r.status.output));
  }

  lemma ResultKeysArePairFree()
    ensures forall i :: 0 <= i < 10 ==> PairFree(ResultKeys()[i])
  {
    forall i | 0 <= i < 10
      ensures PairFree(ResultKeys()[i])
    {
      AsciiIsPairFree(ResultKeyText(i));
    }
  }

  lemma TimeFits(at: int)
    requires 0 < at <= MAX_TIME
    ensures IntFits(at)
  {
    FewerDigits(at, 10);
    assert Pow10(10) == 10 * Pow10(9) && Pow10(9) == 10 * Pow10(8) && Pow10(8) == 10 * Pow10(7) && Pow10(7) == 10 * Pow10(6);
    assert Pow10(6) == 10 * Pow10(5) && Pow10(5) == 10 * Pow10(4) && Pow10(4) == 10 * Pow10(3) && Pow10(3) == 1000;
  }

  lemma DecodedResult(c: Crypto, k: WorkerKey, wire: seq<Byte>, r: Result)
    requires Contracts.Ideal(c) && WorkerIdeal(k) && 0 < r.producedAt <= MAX_TIME
    ensures Decode(wire, KeySet(ResultKeys())) == Some(ResultObject(c, r, ResultSignature(c, k, r))) <==>
            wire == ResultWire(c, k, r) && |wire| <= MAX_WIRE_BYTES && ResultReadable(r)
  {
    hide PairFree, PairFreeValue, Sorted, IntsFit, Depth, ResultValues, Decode, ResultReadable, ResultSignature;
    var signature := ResultSignature(c, k, r);
    var keys, values := ResultKeys(), ResultValues(c, r, signature);
    SignatureIsHex(c, k, r);
    TimeFits(r.producedAt);
    ResultKeysRise();
    ResultKeysArePairFree();
    ResultValuesForm(c, r, signature);
    ResultValuesReadable(c, r, signature);
    ZipObjectForm(keys, values);
    DecodeAcceptsExactlyPrints(wire, KeySet(keys), ResultObject(c, r, signature));
  }

  lemma SignatureIsHex(c: Crypto, k: WorkerKey, r: Result)
    requires WorkerIdeal(k)
    ensures IsHexText(ResultSignature(c, k, r), 128)
  {
  }

  // ---------------------------------------------------------------- the theorems

  /** A wire is accepted as a result of this handoff now exactly when it is the wire the worker signs
      for that result, and the result is acceptable now. */
  lemma AcceptedExactlyAsSigned(c: Crypto, k: WorkerKey, wire: seq<Byte>, h: Handoff, now: int, r: Result)
    requires Contracts.Ideal(c) && WorkerIdeal(k) && h.jobId != [] && h.workerAgentId != []
    ensures Accepted(c, k, wire, h, now) == Some(r) <==>
            && wire == ResultWire(c, k, r) && |wire| <= MAX_WIRE_BYTES && ResultReadable(r)
            && Accepts(r, h, now)
  {
    hide Decode, AcceptObject, ResultObject, ResultWire, ResultReadable, KeySet;
    if Accepted(c, k, wire, h, now) == Some(r) {
      var fields := Decode(wire, KeySet(ResultKeys())).value.fields;
      DecodedResultZip(wire, fields);
      AcceptedObject(c, k, fields, h, now, r);
      DecodedResult(c, k, wire, r);
    }
    if wire == ResultWire(c, k, r) && |wire| <= MAX_WIRE_BYTES && ResultReadable(r) && Accepts(r, h, now) {
      DecodedResult(c, k, wire, r);
      SignedObjectAccepted(c, k, h, now, r);
      ObjectIsObject(c, r, ResultSignature(c, k, r));
    }
  }

  lemma ObjectIsObject(c: Crypto, r: Result, signature: Text)
    ensures ResultObject(c, r, signature).Obj?
  {
  }

  lemma DecodedResultZip(wire: seq<Byte>, fields: Fields)
    requires Decode(wire, KeySet(ResultKeys())) == Some(Obj(fields))
    ensures |Values(fields)| == 10 && fields == Zip(ResultKeys(), Values(fields))
  {
    DecodeAcceptsExactlyPrints(wire, KeySet(ResultKeys()), Obj(fields));
    ResultKeysRise();
    ObjectIsZip(fields, ResultKeys());
  }

  /** One wire, one time. */
  lemma SameWireSameTime(c: Crypto, k: WorkerKey, wire: seq<Byte>, r: Result, q: Result)
    requires Contracts.Ideal(c) && WorkerIdeal(k) && 0 < r.producedAt <= MAX_TIME && 0 < q.producedAt <= MAX_TIME
    requires wire == ResultWire(c, k, r) == ResultWire(c, k, q) && |wire| <= MAX_WIRE_BYTES
    requires ResultReadable(r) && ResultReadable(q)
    ensures r.producedAt == q.producedAt
  {
    hide Decode, ResultReadable, ResultWire, ResultSignature, Zip, ReasonText, StatusText;
    DecodedResult(c, k, wire, r);
    DecodedResult(c, k, wire, q);
    ValuesOfZip(ResultKeys(), ResultValues(c, r, ResultSignature(c, k, r)));
    ValuesOfZip(ResultKeys(), ResultValues(c, q, ResultSignature(c, k, q)));
    assert ResultValues(c, r, ResultSignature(c, k, r))[4] == ResultValues(c, q, ResultSignature(c, k, q))[4];
  }

  /** The result with the surrogate pairs of its output joined. */
  function WithJoinedOutput(r: Result): Result {
    match r.status
    case Succeeded(output) => r.(status := Succeeded(Join(output)))
    case Failed => r
  }

  lemma JoinedStatus(c: Crypto, r: Result)
    ensures Print(OutputValue(WithJoinedOutput(r).status)) == Print(OutputValue(r.status))
    ensures OutputHash(c, WithJoinedOutput(r).status) == OutputHash(c, r.status)
    ensures StatusText(WithJoinedOutput(r).status) == StatusText(r.status)
  {
    hide Print, Join, PayloadValue;
    if r.status.Succeeded? {
      PrintedPayload(r.status.output);
    }
  }

  lemma JoinedResultValues(c: Crypto, r: Result, signature: Text)
    ensures var a, b := ResultValues(c, r, signature), ResultValues(c, WithJoinedOutput(r), signature);
            forall i :: 0 <= i < 10 ==> Print(a[i]) == Print(b[i])
  {
    hide Print, OutputValue, OutputHash, StatusText, ReasonText, HandoffDigest;
    JoinedStatus(c, r);
  }

  /** Signing cannot tell an output from the one with its surrogate pairs joined. */
  lemma JoinedResultWire(c: Crypto, k: WorkerKey, r: Result)
    ensures ResultWire(c, k, WithJoinedOutput(r)) == ResultWire(c, k, r)
  {
    hide ResultValues, ResultKeys, Zip, PrintFields, WithJoinedOutput;
    var q, signature, keys, i := WithJoinedOutput(r), ResultSignature(c, k, r), ResultKeys(), SIGNED_AT;
    var a, b := ResultValues(c, r, []), ResultValues(c, q, []);
    JoinedResultValues(c, r, []);
    ZipPrints(keys[..i] + keys[i + 1..], a[..i] + a[i + 1..], b[..i] + b[i + 1..]);
    JoinedResultValues(c, r, signature);
    ZipPrints(keys, ResultValues(c, r, signature), ResultValues(c, q, signature));
  }

  lemma JoinedResultForm(r: Result, h: Handoff, t: int)
    ensures ResultReadable(WithJoinedOutput(r)) <==> PairFree(r.jobId) && PairFree(r.workerAgentId)
    ensures Accepts(WithJoinedOutput(r), h, t) <==> Accepts(r, h, t)
    ensures WithJoinedOutput(r).producedAt == r.producedAt
  {
    if r.status.Succeeded? {
      JoinedIsPairFree(r.status.output);
    }
  }

  lemma ProducedForm(c: Crypto, k: WorkerKey, h: Handoff, status: Status, reason: Reason, d: int, t: int, wire: seq<Byte>)
    requires ProduceWire(c, k, h, status, reason, d) == Some(wire)
    ensures var r := Produce(h, status, reason, d).value;
            && wire == ResultWire(c, k, r) && |wire| <= MAX_WIRE_BYTES && 0 < d <= MAX_TIME
            && r.jobId == h.jobId && r.workerAgentId == h.workerAgentId && r.producedAt == d
            && (Accepts(r, h, t) <==> d <= t < h.expiresAt)
  {
    hide ResultWire, DecodeCanonical, KeySet;
  }

  /** What becomes of every wire a worker signs for a handoff at `d`: it is accepted at `t` exactly when
      `d <= t < expires` and the handoff's own job and worker ids hold no surrogate pair; as the
      signed result, its output with surrogate pairs joined. */
  lemma SignedWireTakenInTime(c: Crypto, k: WorkerKey, h: Handoff, status: Status, reason: Reason, d: int, t: int,
                              wire: seq<Byte>)
    requires Contracts.Ideal(c) && WorkerIdeal(k) && h.jobId != [] && h.workerAgentId != []
    requires ProduceWire(c, k, h, status, reason, d) == Some(wire)
    ensures Accepted(c, k, wire, h, t) ==
            if d <= t < h.expiresAt && PairFree(h.jobId) && PairFree(h.workerAgentId)
            then Some(WithJoinedOutput(Produce(h, status, reason, d).value)) else None
  {
    hide Accepted, ResultReadable, ResultWire, DecodeCanonical, KeySet, Accepts, WithJoinedOutput, PairFree;
    var r := Produce(h, status, reason, d).value;
    ProducedForm(c, k, h, status, reason, d, t, wire);
    JoinedResultWire(c, k, r);
    JoinedResultForm(r, h, t);
    AcceptedExactlyAsSigned(c, k, wire, h, t, WithJoinedOutput(r));
    if Accepted(c, k, wire, h, t).Some? {
      var q := Accepted(c, k, wire, h, t).value;
      AcceptedExactlyAsSigned(c, k, wire, h, t, q);
      AcceptedForm(q, h, t);
      SameWireSameTime(c, k, wire, WithJoinedOutput(r), q);
    }
  }

  lemma AcceptedForm(r: Result, h: Handoff, t: int)
    requires Accepts(r, h, t) && ResultReadable(r)
    ensures PairFree(h.jobId) && PairFree(h.workerAgentId)
    ensures 0 < r.producedAt <= MAX_TIME && r.producedAt <= t < h.expiresAt
  {
  }
}
