/** `issue`, `validate` and `validate_pending` (geniusnew/contracts.py) over canonical wires:
    together they accept exactly what was issued, while it is current. */
module Contracts {
  import opened Prelude
  import opened Json
  import opened JsonRoundTrip
  import opened Wire
  import opened WireContract
  import opened Handoffs

  // ---------------------------------------------------------------- keys and objects

  /** The handoff keys in dictionary order. */
  function KeyName(i: nat): string
    requires i < 15
  {
    match i
    case 0 => "approval_state"
    case 1 => "expires_at"
    case 2 => "issued_at"
    case 3 => "job_id"
    case 4 => "orchestrator_id"
    case 5 => "payload"
    case 6 => "payload_sha256"
    case 7 => "policy_version"
    case 8 => "sandbox_profile"
    case 9 => "signature"
    case 10 => "tier"
    case 11 => "tools"
    case 12 => "user_id"
    case 13 => "version"
    case _ => "worker_agent_id"
  }

  function HandoffKey(i: nat): Text
    requires i < 15
  {
    Ascii(KeyName(i))
  }

  function HandoffKeys(): (keys: seq<Text>)
    ensures |keys| == 15 && forall i :: 0 <= i < 15 ==> keys[i] == HandoffKey(i)
  {
    seq(15, i requires 0 <= i < 15 => HandoffKey(i))
  }

  const SIGNATURE := 9

  function Zip(keys: seq<Text>, values: seq<Value>): Fields
    requires |keys| == |values|
  {
    if keys == [] then NoFields else Field(keys[0], values[0], Zip(keys[1..], values[1..]))
  }

  function Values(fields: Fields): seq<Value> {
    match fields
    case NoFields => []
    case Field(_, value, rest) => [value] + Values(rest)
  }

  function Without(fields: Fields, key: Text): Fields {
    match fields
    case NoFields => NoFields
    case Field(k, value, rest) => if k == key then rest else Field(k, value, Without(rest, key))
  }

  predicate KeysRise(keys: seq<Text>) {
    |keys| < 2 || (Less(keys[0], keys[1]) && KeysRise(keys[1..]))
  }

  function KeySet(keys: seq<Text>): set<Text> { set k | k in keys }

  lemma {:induction false} ZipSorted(keys: seq<Text>, values: seq<Value>)
    requires |keys| == |values| && KeysRise(keys)
    requires forall i :: 0 <= i < |values| ==> Sorted(values[i])
    ensures FieldsSorted(Zip(keys, values)) && Keys(Zip(keys, values)) == KeySet(keys)
  {
    if keys != [] {
      ZipSorted(keys[1..], values[1..]);
      if |keys| > 1 {
        BelowAll(keys[0], Zip(keys[1..], values[1..]));
      }
      assert KeySet(keys) == {keys[0]} + KeySet(keys[1..]);
    }
  }

  lemma {:induction false} BelowSet(key: Text, fields: Fields, k: Text)
    requires Below(key, fields) && k in Keys(fields)
    ensures Less(key, k)
  {
    if k != fields.key {
      BelowSet(key, fields.rest, k);
    }
  }

  lemma {:induction false} RisingBelow(keys: seq<Text>, k: Text)
    requires keys != [] && KeysRise(keys) && k in keys[1..]
    ensures Less(keys[0], k)
  {
    if k != keys[1] {
      assert keys[1..] == [keys[1]] + keys[1..][1..];
      RisingBelow(keys[1..], k);
      LessIsTransitive(keys[0], keys[1], k);
    }
  }

  lemma KeysOfField(fields: Fields)
    ensures Keys(fields) == {} <==> fields.NoFields?
  {
    assert fields.Field? ==> fields.key in Keys(fields);
  }

  /** A sorted object over known keys lists exactly those keys, in order. */
  lemma {:induction false} ObjectIsZip(fields: Fields, keys: seq<Text>)
    requires FieldsSorted(fields) && KeysRise(keys) && Keys(fields) == KeySet(keys)
    ensures |Values(fields)| == |keys| && fields == Zip(keys, Values(fields))
  {
    if keys == [] {
      KeysOfField(fields);
    } else {
      assert keys[0] in KeySet(keys);
      assert fields.Field? && fields.key in KeySet(keys);
      assert keys == [keys[0]] + keys[1..];
      if fields.key != keys[0] {
        BelowSet(fields.key, fields.rest, keys[0]);
        RisingBelow(keys, fields.key);
        LessIsStrict(keys[0], fields.key);
      }
      BelowKeys(fields.key, fields.rest);
      if keys[0] in keys[1..] {
        RisingBelow(keys, keys[0]);
        LessIsStrict(keys[0], keys[0]);
      }
      assert Keys(fields.rest) == KeySet(keys) - {keys[0]} == KeySet(keys[1..]);
      ObjectIsZip(fields.rest, keys[1..]);
      assert Values(fields)[1..] == Values(fields.rest);
    }
  }

  lemma {:induction false} WithoutZip(keys: seq<Text>, values: seq<Value>, i: nat)
    requires |keys| == |values| && KeysRise(keys) && i < |keys|
    ensures Without(Zip(keys, values), keys[i]) == Zip(keys[..i] + keys[i + 1..], values[..i] + values[i + 1..])
  {
    if i == 0 {
      assert keys[..0] + keys[1..] == keys[1..] && values[..0] + values[1..] == values[1..];
    } else {
      assert keys[i] in keys[1..] by { assert keys[1..][i - 1] == keys[i]; }
      RisingBelow(keys, keys[i]);
      LessIsStrict(keys[0], keys[i]);
      WithoutZip(keys[1..], values[1..], i - 1);
      assert (keys[..i] + keys[i + 1..])[1..] == keys[1..][..i - 1] + keys[1..][i..];
      assert (values[..i] + values[i + 1..])[1..] == values[1..][..i - 1] + values[1..][i..];
      assert keys[1..][i - 1] == keys[i];
    }
  }

  lemma {:induction false} PrefixIsLess(a: Text, b: Text)
    requires b != []
    ensures Less(a, a + b)
  {
    if a == [] {
      assert a + b == b;
    } else {
      assert (a + b)[1..] == a[1..] + b;
      PrefixIsLess(a[1..], b);
    }
  }

  lemma FirstDecides(a: Text, b: Text)
    requires a != [] && b != [] && a[0] < b[0]
    ensures Less(a, b)
  {
  }

  lemma SecondDecides(a: Text, b: Text)
    requires |a| > 1 && |b| > 1 && a[0] == b[0] && a[1] < b[1]
    ensures Less(a, b)
  {
    FirstDecides(a[1..], b[1..]);
  }

  predicate RisesAt(keys: seq<Text>, i: nat)
    requires i + 1 < |keys|
  {
    Less(keys[i], keys[i + 1])
  }

  lemma {:induction false} RisingEverywhere(keys: seq<Text>)
    requires forall i: nat :: i + 1 < |keys| ==> RisesAt(keys, i)
    ensures KeysRise(keys)
  {
    if |keys| >= 2 {
      assert RisesAt(keys, 0);
      forall i: nat | i + 1 < |keys[1..]|
        ensures RisesAt(keys[1..], i)
      {
        assert RisesAt(keys, i + 1);
      }
      RisingEverywhere(keys[1..]);
    }
  }

  lemma HandoffKeysRise()
    ensures KeysRise(HandoffKeys())
  {
    var k := HandoffKeys();
    forall i: nat | i + 1 < |k|
      ensures RisesAt(k, i)
    {
      HandoffKeyRises(i);
    }
    RisingEverywhere(k);
  }

  lemma HandoffKeyRises(i: nat)
    requires i < 14
    ensures Less(HandoffKey(i), HandoffKey(i + 1))
  {
    if i == 5 {
      PayloadKeysRise();
    } else if i in {6, 8, 10} {
      KeysShareInitial(i);
    } else if i < 5 {
      EarlyKeysRise(i);
    } else {
      LateKeysRise(i);
    }
  }

  lemma PayloadKeysRise()
    ensures Less(HandoffKey(5), HandoffKey(6))
  {
    var a, b := HandoffKey(5), Ascii("_sha256");
    PrefixIsLess(a, b);
    var c := HandoffKey(6);
    assert "payload_sha256" == "payload" + "_sha256";
    assert forall i :: 0 <= i < 14 ==> c[i] == (a + b)[i];
    assert a + b == c;
  }

  lemma KeysShareInitial(i: nat)
    requires i in {6, 8, 10}
    ensures Less(HandoffKey(i), HandoffKey(i + 1))
  {
    SecondDecides(HandoffKey(i), HandoffKey(i + 1));
  }

  lemma EarlyKeysRise(i: nat)
    requires i < 5
    ensures Less(HandoffKey(i), HandoffKey(i + 1))
  {
    FirstDecides(HandoffKey(i), HandoffKey(i + 1));
  }

  lemma LateKeysRise(i: nat)
    requires i in {7, 9, 11, 12, 13}
    ensures Less(HandoffKey(i), HandoffKey(i + 1))
  {
    FirstDecides(HandoffKey(i), HandoffKey(i + 1));
  }

  // ---------------------------------------------------------------- issuing

  /** The handoff key and SHA-256, as functions: signing is deterministic (section 5.1.6 of
      RFC 8032) and a signature verifies exactly when it is the one signing gives. */
  datatype Crypto = Crypto(sign: Text -> Text, sha256: Text -> Text)

  ghost predicate Ideal(c: Crypto) {
    (forall m :: IsHexText(c.sign(m), 128)) && (forall m :: IsHexText(c.sha256(m), 64))
  }

  function Version(): Text { Ascii("geniusnew-handoff-v2") }

  function ApprovalState(pending: bool): Text {
    if pending then Ascii("PENDING_APPROVAL") else Ascii("NOT_REQUIRED")
  }

  function PayloadValue(text: Text): Value { Obj(Field(Ascii("text"), Str(text), NoFields)) }

  function TextItems(texts: seq<Text>): Items {
    if texts == [] then NoItems else Item(Str(texts[0]), TextItems(texts[1..]))
  }

  /** The values of a handoff wire, in key order. */
  function HandoffValues(h: Handoff, payloadHash: Text, signature: Text): (v: seq<Value>)
    ensures |v| == 15
  {
    [ Str(ApprovalState(h.pending)), Num(h.expiresAt), Num(h.issuedAt), Str(h.jobId), Str(h.orchestratorId),
      PayloadValue(h.text), Str(payloadHash), Str(h.policyVersion), Str(h.sandboxProfile), Str(signature),
      Str(h.tier), Arr(TextItems(h.tools)), Str(h.userId), Str(Version()), Str(h.workerAgentId) ]
  }

  function HandoffObject(h: Handoff, payloadHash: Text, signature: Text): Value {
    Obj(Zip(HandoffKeys(), HandoffValues(h, payloadHash, signature)))
  }

  /** The body that is signed: every field but the signature. */
  function Body(h: Handoff, payloadHash: Text): Value {
    var keys, values := HandoffKeys(), HandoffValues(h, payloadHash, []);
    Obj(Zip(keys[..SIGNATURE] + keys[SIGNATURE + 1..], values[..SIGNATURE] + values[SIGNATURE + 1..]))
  }

  function PayloadHash(c: Crypto, text: Text): Text { c.sha256(Print(PayloadValue(text))) }

  function Signature(c: Crypto, h: Handoff): Text { c.sign(Print(Body(h, PayloadHash(c, h.text)))) }

  function HandoffWire(c: Crypto, h: Handoff): Text {
    Print(HandoffObject(h, PayloadHash(c, h.text), Signature(c, h)))
  }

  function Issue(c: Crypto, policy: Policy, subject: Text, jobId: Text, text: Text, now: int): Option<Text> {
    match GrantFor(policy.grants, subject)
    case None => None
    case Some(grant) =>
      var h := Issued(policy, grant, jobId, text, now);
      if text == [] || jobId == [] || !IntFits(h.issuedAt) || !IntFits(h.expiresAt) then None
      else if |HandoffWire(c, h)| > MAX_WIRE_BYTES then None
      else Some(HandoffWire(c, h))
  }

  // ---------------------------------------------------------------- validating

  predicate NonEmptyText(v: Value) { v.Str? && v.s != [] }

  function ReadTexts(items: Items): Option<seq<Text>> {
    match items
    case NoItems => Some([])
    case Item(head, tail) =>
      if NonEmptyText(head) && ReadTexts(tail).Some? then Some([head.s] + ReadTexts(tail).value) else None
  }

  /** The one text of a payload object. */
  function ReadPayload(v: Value): Option<Text> {
    match v
    case Obj(Field(key, value, NoFields)) => if key == Ascii("text") && NonEmptyText(value) then Some(value.s) else None
    case _ => None
  }

  /** The checks on field types alone. */
  predicate Typed(v: seq<Value>) {
    && |v| == 15
    && NonEmptyText(v[0]) && v[1].Num? && v[2].Num? && NonEmptyText(v[3]) && NonEmptyText(v[4])
    && ReadPayload(v[5]).Some? && NonEmptyText(v[6]) && NonEmptyText(v[7]) && NonEmptyText(v[8]) && NonEmptyText(v[9])
    && NonEmptyText(v[10]) && v[11].Arr? && ReadTexts(v[11].items).Some? && NonEmptyText(v[12]) && NonEmptyText(v[13])
    && NonEmptyText(v[14])
    && ReadTexts(v[11].items).value != [] && Distinct(ReadTexts(v[11].items).value)
  }

  function ReadHandoff(v: seq<Value>): Handoff
    requires Typed(v)
  {
    Handoff(v[3].s, v[12].s, v[4].s, v[14].s, v[10].s, ReadTexts(v[11].items).value, v[8].s,
            v[0].s == ApprovalState(true), v[7].s, v[2].n, v[1].n, ReadPayload(v[5]).value)
  }

  function FromObject(c: Crypto, fields: Fields, policy: Policy, subject: Text, jobId: Text, now: int,
                      allowPending: bool): Option<Handoff> {
    var v := Values(fields);
    match GrantFor(policy.grants, subject)
    case None => None
    case Some(grant) =>
      if jobId == [] || !Typed(v) then None
      else if v[6].s != c.sha256(Print(v[5])) then None
      else if !IsHexText(v[9].s, 128) || v[9].s != c.sign(Print(Obj(Without(fields, HandoffKey(SIGNATURE))))) then None
      else
        var h := ReadHandoff(v);
        if v[13].s != Version() || v[0].s != ApprovalState(grant.requiresApproval)
           || h != Issued(policy, grant, jobId, h.text, h.issuedAt) then None
        else if h.issuedAt > now || now >= h.expiresAt then None
        else if v[0].s == ApprovalState(true) && !allowPending then None
        else Some(h)
  }

  function Validate(c: Crypto, wire: seq<Byte>, policy: Policy, subject: Text, jobId: Text, now: int): Option<Handoff> {
    match Decode(wire, KeySet(HandoffKeys()))
    case Some(Obj(fields)) => FromObject(c, fields, policy, subject, jobId, now, false)
    case _ => None
  }

  function ValidatePending(c: Crypto, wire: seq<Byte>, policy: Policy, subject: Text, jobId: Text, now: int): Option<Handoff> {
    match Decode(wire, KeySet(HandoffKeys()))
    case Some(Obj(fields)) =>
      var h := FromObject(c, fields, policy, subject, jobId, now, true);
      if h.Some? && !h.value.pending then None else h
    case _ => None
  }
}
