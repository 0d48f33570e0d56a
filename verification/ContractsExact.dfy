/** Validation accepts exactly what issuing emits, while it is current, and the grant decides
    which of the two validators does (geniusnew/contracts.py). */
module ContractsExact {
  import opened Prelude
  import opened Json
  import opened JsonRoundTrip
  import opened Wire
  import opened WireContract
  import opened Handoffs
  import opened Contracts

  // ---------------------------------------------------------------- reading back what was written

  lemma {:induction false} TextsReadBack(texts: seq<Text>)
    requires [] !in texts
    ensures ReadTexts(TextItems(texts)) == Some(texts)
  {
    if texts != [] {
      TextsReadBack(texts[1..]);
      assert texts == [texts[0]] + texts[1..];
    }
  }

  lemma {:induction false} ReadTextsInverts(items: Items)
    requires ReadTexts(items).Some?
    ensures TextItems(ReadTexts(items).value) == items
  {
    if items.Item? {
      ReadTextsInverts(items.tail);
      assert ReadTexts(items).value[1..] == ReadTexts(items.tail).value;
    }
  }

  lemma StatesDiffer()
    ensures ApprovalState(true) != ApprovalState(false)
  {
    assert |ApprovalState(true)| == 16 && |ApprovalState(false)| == 12;
  }

  /** The decoded fields are the ones the handoff would be written with. */
  lemma ReadHandoffInverts(v: seq<Value>, pending: bool)
    requires Typed(v) && v[0].s == ApprovalState(pending) && v[13].s == Version()
    ensures v == HandoffValues(ReadHandoff(v), v[6].s, v[9].s)
  {
    StatesDiffer();
    ReadTextsInverts(v[11].items);
    var w := HandoffValues(ReadHandoff(v), v[6].s, v[9].s);
    assert v[5] == w[5];
    assert v[0] == w[0] && v[1] == w[1] && v[2] == w[2] && v[3] == w[3] && v[4] == w[4];
    assert v[6] == w[6] && v[7] == w[7] && v[8] == w[8] && v[9] == w[9] && v[10] == w[10];
    assert v[11] == w[11] && v[12] == w[12] && v[13] == w[13] && v[14] == w[14];
  }

  lemma ValuesAgree(h: Handoff, payloadHash: Text, a: Text, b: Text)
    ensures forall i :: 0 <= i < 15 && i != SIGNATURE ==>
              HandoffValues(h, payloadHash, a)[i] == HandoffValues(h, payloadHash, b)[i]
  {
  }

  lemma DropAgreeing(a: seq<Value>, b: seq<Value>, k: nat)
    requires |a| == |b| && k < |a| && forall i :: 0 <= i < |a| && i != k ==> a[i] == b[i]
    ensures a[..k] + a[k + 1..] == b[..k] + b[k + 1..]
  {
  }

  lemma SignedPart(h: Handoff, payloadHash: Text, signature: Text)
    ensures Obj(Without(Zip(HandoffKeys(), HandoffValues(h, payloadHash, signature)), HandoffKey(SIGNATURE)))
            == Body(h, payloadHash)
  {
    var keys, values, bare := HandoffKeys(), HandoffValues(h, payloadHash, signature), HandoffValues(h, payloadHash, []);
    HandoffKeysRise();
    WithoutZip(keys, values, SIGNATURE);
    ValuesAgree(h, payloadHash, signature, []);
    DropAgreeing(values, bare, SIGNATURE);
  }

  lemma {:induction false} ValuesOfZip(keys: seq<Text>, values: seq<Value>)
    requires |keys| == |values|
    ensures Values(Zip(keys, values)) == values
  {
    if keys != [] {
      ValuesOfZip(keys[1..], values[1..]);
      assert values == [values[0]] + values[1..];
    }
  }

  lemma AcceptedFields(c: Crypto, fields: Fields, policy: Policy, subject: Text, jobId: Text, now: int,
                       allowPending: bool, h: Handoff)
    requires |Values(fields)| == 15 && fields == Zip(HandoffKeys(), Values(fields))
    requires FromObject(c, fields, policy, subject, jobId, now, allowPending) == Some(h)
    ensures Obj(fields) == HandoffObject(h, PayloadHash(c, h.text), Signature(c, h))
    ensures Trusted(policy, subject, jobId, h) && Current(h, now) && (h.pending ==> allowPending)
  {
    hide Values, Without, Body, HandoffKeys, Version, IsHexText, Zip;
    var v := Values(fields);
    var grant := GrantFor(policy.grants, subject).value;
    ReadHandoffInverts(v, grant.requiresApproval);
    SignedPart(h, v[6].s, v[9].s);
    StatesDiffer();
  }

  lemma WrittenFieldsTyped(h: Handoff, payloadHash: Text, signature: Text, grant: Grant)
    requires GrantValid(grant) && h.tools == grant.tools && h.text != [] && h.jobId != [] && h.orchestratorId != []
    requires h.policyVersion != [] && h.userId == grant.userId && h.workerAgentId == grant.workerAgentId
    requires h.tier == grant.tier && h.sandboxProfile == grant.sandboxProfile
    requires payloadHash != [] && signature != []
    ensures Typed(HandoffValues(h, payloadHash, signature))
    ensures ReadHandoff(HandoffValues(h, payloadHash, signature)) == h
  {
    hide TextItems, ReadTexts, Distinct, Ascii;
    var v := HandoffValues(h, payloadHash, signature);
    TextsReadBack(h.tools);
    StatesDiffer();
    assert |Version()| == 20;
    assert |ApprovalState(h.pending)| > 0;
    assert ReadPayload(v[5]) == Some(h.text);
  }

  lemma IssuedFieldsAccepted(c: Crypto, policy: Policy, subject: Text, jobId: Text, now: int, allowPending: bool, h: Handoff)
    requires Ideal(c) && PolicyValid(policy) && Trusted(policy, subject, jobId, h)
    requires Current(h, now) && (h.pending ==> allowPending)
    ensures FromObject(c, HandoffObject(h, PayloadHash(c, h.text), Signature(c, h)).fields, policy, subject, jobId, now,
                       allowPending) == Some(h)
  {
    hide Ideal, Zip, Without, ReadPayload, PolicyValid;
    PolicyTexts(policy, subject);
    var hash, signature := PayloadHash(c, h.text), Signature(c, h);
    var grant := GrantFor(policy.grants, subject).value;
    var v := HandoffValues(h, hash, signature);
    ValuesOfZip(HandoffKeys(), v);
    HexTexts(c, h);
    WrittenFieldsTyped(h, hash, signature, grant);
    SignedPart(h, hash, signature);
    StatesDiffer();
  }

  /** The grant of a valid policy leaves no text of a handoff empty. */
  lemma PolicyTexts(policy: Policy, subject: Text)
    requires PolicyValid(policy) && GrantFor(policy.grants, subject).Some?
    ensures GrantValid(GrantFor(policy.grants, subject).value) && policy.version != [] && policy.orchestratorId != []
  {
  }

  lemma HexTexts(c: Crypto, h: Handoff)
    requires Ideal(c)
    ensures IsHexText(PayloadHash(c, h.text), 64) && IsHexText(Signature(c, h), 128)
  {
  }

  // ---------------------------------------------------------------- which handoffs have a wire

  /** No text of the handoff holds a surrogate pair, so it survives being printed. */
  predicate Readable(h: Handoff) {
    && PairFree(h.jobId) && PairFree(h.userId) && PairFree(h.orchestratorId) && PairFree(h.workerAgentId)
    && PairFree(h.tier) && PairFree(h.sandboxProfile) && PairFree(h.policyVersion) && PairFree(h.text)
    && AllPairFree(h.tools)
  }

  predicate AllPairFree(texts: seq<Text>) {
    texts == [] || (PairFree(texts[0]) && AllPairFree(texts[1..]))
  }

  lemma {:induction false} TextItemsForm(texts: seq<Text>)
    ensures PairFreeItems(TextItems(texts)) <==> AllPairFree(texts)
    ensures ItemsFit(TextItems(texts)) && ItemsSorted(TextItems(texts)) && ItemsDepth(TextItems(texts)) == 0
  {
    if texts != [] {
      TextItemsForm(texts[1..]);
    }
  }

  lemma {:induction false} ZipForm(keys: seq<Text>, values: seq<Value>)
    requires |keys| == |values| && forall i :: 0 <= i < |keys| ==> PairFree(keys[i])
    requires forall i :: 0 <= i < |values| ==> Depth(values[i]) <= 1
    ensures PairFreeFields(Zip(keys, values)) <==> forall i :: 0 <= i < |values| ==> PairFreeValue(values[i])
    ensures FieldsFit(Zip(keys, values)) <==> forall i :: 0 <= i < |values| ==> IntsFit(values[i])
    ensures FieldsDepth(Zip(keys, values)) <= 1
  {
    if keys != [] {
      ZipForm(keys[1..], values[1..]);
      assert values == [values[0]] + values[1..];
    }
  }

  lemma OneTextForm(key: Text, text: Text)
    ensures var field := Field(key, Str(text), NoFields);
            && FieldsDepth(field) == 0 && FieldsSorted(field) && FieldsFit(field)
            && (PairFreeFields(field) <==> PairFree(key) && PairFree(text))
  {
    hide PairFree;
    assert FieldsDepth(NoFields) == 0 && FieldsSorted(NoFields) && FieldsFit(NoFields) && PairFreeFields(NoFields);
    assert Depth(Str(text)) == 0 && Sorted(Str(text)) && IntsFit(Str(text)) && PairFreeValue(Str(text)) == PairFree(text);
  }

  lemma PayloadForm(text: Text)
    ensures Depth(PayloadValue(text)) == 1 && Sorted(PayloadValue(text)) && IntsFit(PayloadValue(text))
    ensures PairFreeValue(PayloadValue(text)) <==> PairFree(text)
  {
    hide Ascii, PairFree;
    AsciiIsPairFree(Ascii("text"));
    OneTextForm(Ascii("text"), text);
  }

  lemma ValuesForm(h: Handoff, payloadHash: Text, signature: Text)
    ensures forall i :: 0 <= i < 15 ==> Depth(HandoffValues(h, payloadHash, signature)[i]) <= 1
    ensures forall i :: 0 <= i < 15 ==> Sorted(HandoffValues(h, payloadHash, signature)[i])
    ensures (forall i :: 0 <= i < 15 ==> IntsFit(HandoffValues(h, payloadHash, signature)[i]))
            <==> IntFits(h.issuedAt) && IntFits(h.expiresAt)
  {
    var v := HandoffValues(h, payloadHash, signature);
    PayloadForm(h.text);
    TextItemsForm(h.tools);
    assert IntsFit(v[1]) == IntFits(h.expiresAt) && IntsFit(v[2]) == IntFits(h.issuedAt);
  }

  lemma ReadableValues(h: Handoff, payloadHash: Text, signature: Text)
    requires PairFree(payloadHash) && PairFree(signature) && Readable(h)
    ensures forall i :: 0 <= i < 15 ==> PairFreeValue(HandoffValues(h, payloadHash, signature)[i])
  {
    hide PairFree;
    PayloadForm(h.text);
    TextItemsForm(h.tools);
    AsciiIsPairFree(ApprovalState(h.pending));
    AsciiIsPairFree(Version());
  }

  lemma ReadableFromValues(h: Handoff, payloadHash: Text, signature: Text)
    requires forall i :: 0 <= i < 15 ==> PairFreeValue(HandoffValues(h, payloadHash, signature)[i])
    ensures Readable(h)
  {
    var v := HandoffValues(h, payloadHash, signature);
    PayloadForm(h.text);
    TextItemsForm(h.tools);
    assert PairFreeValue(v[3]) && PairFreeValue(v[4]) && PairFreeValue(v[5]) && PairFreeValue(v[7]);
    assert PairFreeValue(v[8]) && PairFreeValue(v[10]) && PairFreeValue(v[11]);
    assert PairFreeValue(v[12]) && PairFreeValue(v[14]);
  }

  lemma HexIsPairFree(t: Text, n: nat)
    requires IsHexText(t, n)
    ensures PairFree(t)
  {
    AsciiIsPairFree(t);
  }

  lemma KeysArePairFree()
    ensures forall i :: 0 <= i < 15 ==> PairFree(HandoffKeys()[i])
  {
    forall i | 0 <= i < 15
      ensures PairFree(HandoffKeys()[i])
    {
      AsciiIsPairFree(HandoffKey(i));
    }
  }

  lemma ZipObjectForm(keys: seq<Text>, values: seq<Value>)
    requires |keys| == |values| && KeysRise(keys)
    requires forall i :: 0 <= i < |keys| ==> PairFree(keys[i])
    requires forall i :: 0 <= i < |values| ==> Depth(values[i]) <= 1
    requires forall i :: 0 <= i < |values| ==> Sorted(values[i])
    ensures WellFormed(Obj(Zip(keys, values))) <==>
            && (forall i :: 0 <= i < |values| ==> PairFreeValue(values[i]))
            && (forall i :: 0 <= i < |values| ==> IntsFit(values[i]))
    ensures Depth(Obj(Zip(keys, values))) <= 2 && Keys(Zip(keys, values)) == KeySet(keys)
  {
    ZipForm(keys, values);
    ZipSorted(keys, values);
  }

  /** The object of a handoff is well formed exactly when its texts and times can be printed. */
  lemma ObjectForm(h: Handoff, payloadHash: Text, signature: Text)
    requires PairFree(payloadHash) && PairFree(signature)
    ensures WellFormed(HandoffObject(h, payloadHash, signature)) <==>
            Readable(h) && IntFits(h.issuedAt) && IntFits(h.expiresAt)
    ensures Depth(HandoffObject(h, payloadHash, signature)) <= 2
    ensures Keys(HandoffObject(h, payloadHash, signature).fields) == KeySet(HandoffKeys())
  {
    var keys, values := HandoffKeys(), HandoffValues(h, payloadHash, signature);
    HandoffKeysRise();
    KeysArePairFree();
    ValuesForm(h, payloadHash, signature);
    if Readable(h) {
      ReadableValues(h, payloadHash, signature);
    }
    if forall i :: 0 <= i < 15 ==> PairFreeValue(values[i]) {
      ReadableFromValues(h, payloadHash, signature);
    }
    ZipObjectForm(keys, values);
  }

  // ---------------------------------------------------------------- the theorem

  /** `wire` is what `Issue` emits for the trusted facts of `h`. */
  predicate IssuedAs(c: Crypto, wire: seq<Byte>, policy: Policy, subject: Text, jobId: Text, h: Handoff) {
    && Issue(c, policy, subject, jobId, h.text, h.issuedAt) == Some(wire)
    && Trusted(policy, subject, jobId, h) && Readable(h)
  }

  lemma DecodedHandoff(c: Crypto, wire: seq<Byte>, h: Handoff)
    requires Ideal(c)
    ensures Decode(wire, KeySet(HandoffKeys())) == Some(HandoffObject(h, PayloadHash(c, h.text), Signature(c, h))) <==>
            && wire == HandoffWire(c, h) && |wire| <= MAX_WIRE_BYTES
            && Readable(h) && IntFits(h.issuedAt) && IntFits(h.expiresAt)
  {
    var hash, signature := PayloadHash(c, h.text), Signature(c, h);
    HexTexts(c, h);
    HexIsPairFree(hash, 64);
    HexIsPairFree(signature, 128);
    ObjectForm(h, hash, signature);
    DecodeAcceptsExactlyPrints(wire, KeySet(HandoffKeys()), HandoffObject(h, hash, signature));
  }

  lemma DecodedFieldsZip(wire: seq<Byte>, fields: Fields)
    requires Decode(wire, KeySet(HandoffKeys())) == Some(Obj(fields))
    ensures |Values(fields)| == 15 && fields == Zip(HandoffKeys(), Values(fields))
  {
    DecodeAcceptsExactlyPrints(wire, KeySet(HandoffKeys()), Obj(fields));
    HandoffKeysRise();
    ObjectIsZip(fields, HandoffKeys());
  }

  function FromWire(c: Crypto, wire: seq<Byte>, policy: Policy, subject: Text, jobId: Text, now: int,
                    allowPending: bool): Option<Handoff> {
    match Decode(wire, KeySet(HandoffKeys()))
    case Some(Obj(fields)) => FromObject(c, fields, policy, subject, jobId, now, allowPending)
    case _ => None
  }

  lemma FromWireExactly(c: Crypto, wire: seq<Byte>, policy: Policy, subject: Text, jobId: Text, now: int,
                        allowPending: bool, h: Handoff)
    requires Ideal(c) && PolicyValid(policy)
    ensures FromWire(c, wire, policy, subject, jobId, now, allowPending) == Some(h) <==>
            IssuedAs(c, wire, policy, subject, jobId, h) && Current(h, now) && (h.pending ==> allowPending)
  {
    hide Decode, Readable, PolicyValid, Ideal, Zip, HandoffKeys, HandoffValues;
    DecodedHandoff(c, wire, h);
    if FromWire(c, wire, policy, subject, jobId, now, allowPending) == Some(h) {
      var fields := Decode(wire, KeySet(HandoffKeys())).value.fields;
      DecodedFieldsZip(wire, fields);
      AcceptedFields(c, fields, policy, subject, jobId, now, allowPending, h);
    }
    if IssuedAs(c, wire, policy, subject, jobId, h) && Current(h, now) && (h.pending ==> allowPending) {
      IssuedFieldsAccepted(c, policy, subject, jobId, now, allowPending, h);
    }
  }

  /** For a subject, job, policy and time, the two validators accept exactly the wires issued at
      some time `t` with `t <= now < t + ttl`, as the handoff that was issued; the grant's
      approval requirement decides which of the two accepts. */
  lemma ValidatorsAcceptExactlyIssued(c: Crypto, wire: seq<Byte>, policy: Policy, subject: Text, jobId: Text, now: int,
                                      h: Handoff)
    requires Ideal(c) && PolicyValid(policy)
    ensures Validate(c, wire, policy, subject, jobId, now) == Some(h) <==>
            IssuedAs(c, wire, policy, subject, jobId, h) && Current(h, now) && !h.pending
    ensures ValidatePending(c, wire, policy, subject, jobId, now) == Some(h) <==>
            IssuedAs(c, wire, policy, subject, jobId, h) && Current(h, now) && h.pending
  {
    FromWireExactly(c, wire, policy, subject, jobId, now, false, h);
    FromWireExactly(c, wire, policy, subject, jobId, now, true, h);
  }

  // ---------------------------------------------------------------- what becomes of an issued wire

  lemma {:induction false} ZipPrints(keys: seq<Text>, a: seq<Value>, b: seq<Value>)
    requires |keys| == |a| == |b| && forall i :: 0 <= i < |a| ==> Print(a[i]) == Print(b[i])
    ensures PrintFields(Zip(keys, a)) == PrintFields(Zip(keys, b))
  {
    hide Print, PrintString;
    if keys != [] {
      ZipPrints(keys[1..], a[1..], b[1..]);
    }
  }

  lemma PrintedPayload(text: Text)
    ensures Print(PayloadValue(Join(text))) == Print(PayloadValue(text))
  {
    hide Join, Ascii, Print;
    var key := Ascii("text");
    PrintJoined(PayloadValue(text));
    AsciiIsPairFree(key);
    JoinKeepsPairFree(key);
    assert JoinFields(Field(key, Str(text), NoFields)) == Field(key, Str(Join(text)), NoFields);
  }

  /** The handoff with the surrogate pairs of its payload text joined. */
  function WithJoinedText(h: Handoff): Handoff { h.(text := Join(h.text)) }

  lemma JoinedValues(h: Handoff, payloadHash: Text, signature: Text)
    ensures var a, b := HandoffValues(h, payloadHash, signature), HandoffValues(WithJoinedText(h), payloadHash, signature);
            forall i :: 0 <= i < 15 ==> Print(a[i]) == Print(b[i])
  {
    hide Print, Join, ApprovalState, Version;
    PrintedPayload(h.text);
  }

  /** Issuing cannot tell a payload text from the one with its surrogate pairs joined: same digest,
      same signature, same bytes. */
  lemma JoinedWire(c: Crypto, h: Handoff)
    ensures HandoffWire(c, WithJoinedText(h)) == HandoffWire(c, h)
  {
    hide HandoffValues, HandoffKeys, Zip, PrintFields, WithJoinedText;
    var q, hash := WithJoinedText(h), PayloadHash(c, h.text);
    JoinedHash(c, h);
    JoinedBody(h, hash);
    JoinedValues(h, hash, Signature(c, h));
    ZipPrints(HandoffKeys(), HandoffValues(h, hash, Signature(c, h)), HandoffValues(q, hash, Signature(c, h)));
  }

  lemma JoinedHash(c: Crypto, h: Handoff)
    ensures PayloadHash(c, WithJoinedText(h).text) == PayloadHash(c, h.text)
  {
    PrintedPayload(h.text);
  }

  lemma JoinedBody(h: Handoff, payloadHash: Text)
    ensures Print(Body(WithJoinedText(h), payloadHash)) == Print(Body(h, payloadHash))
  {
    hide HandoffValues, HandoffKeys, Zip, PrintFields, WithJoinedText;
    var keys, k := HandoffKeys(), SIGNATURE;
    var a, b := HandoffValues(h, payloadHash, []), HandoffValues(WithJoinedText(h), payloadHash, []);
    JoinedValues(h, payloadHash, []);
    ZipPrints(keys[..k] + keys[k + 1..], a[..k] + a[k + 1..], b[..k] + b[k + 1..]);
  }

  /** No text but the payload's holds a surrogate pair. */
  predicate FactsReadable(h: Handoff) { Readable(h.(text := [])) }

  lemma ReadableWhenJoined(h: Handoff)
    ensures Readable(WithJoinedText(h)) <==> FactsReadable(h)
    ensures Readable(h) ==> FactsReadable(h)
    ensures Join(h.text) == [] <==> h.text == []
  {
    JoinedIsPairFree(h.text);
  }

  lemma SameObjectSameHandoff(h: Handoff, q: Handoff, hashes: (Text, Text), signatures: (Text, Text))
    requires HandoffObject(h, hashes.0, signatures.0) == HandoffObject(q, hashes.1, signatures.1)
    ensures h.issuedAt == q.issuedAt && h.text == q.text
  {
    hide Zip;
    var a, b := HandoffValues(h, hashes.0, signatures.0), HandoffValues(q, hashes.1, signatures.1);
    ValuesOfZip(HandoffKeys(), a);
    ValuesOfZip(HandoffKeys(), b);
    assert a[2] == b[2] && a[5] == b[5];
  }

  /** One wire, one handoff: its time and text are determined by its bytes. */
  lemma SameWireSameHandoff(c: Crypto, wire: seq<Byte>, h: Handoff, q: Handoff)
    requires Ideal(c) && wire == HandoffWire(c, h) == HandoffWire(c, q) && |wire| <= MAX_WIRE_BYTES
    requires Readable(h) && IntFits(h.issuedAt) && IntFits(h.expiresAt)
    requires Readable(q) && IntFits(q.issuedAt) && IntFits(q.expiresAt)
    ensures h.issuedAt == q.issuedAt && h.text == q.text
  {
    hide Decode, Readable, HandoffObject, HandoffWire, Ideal;
    DecodedHandoff(c, wire, h);
    DecodedHandoff(c, wire, q);
    SameObjectSameHandoff(h, q, (PayloadHash(c, h.text), PayloadHash(c, q.text)), (Signature(c, h), Signature(c, q)));
  }

  lemma IssueForm(c: Crypto, wire: seq<Byte>, policy: Policy, subject: Text, jobId: Text, text: Text, t: int)
    requires Issue(c, policy, subject, jobId, text, t) == Some(wire)
    ensures var h := Issued(policy, GrantFor(policy.grants, subject).value, jobId, text, t);
            && wire == HandoffWire(c, h) && |wire| <= MAX_WIRE_BYTES && IntFits(h.issuedAt) && IntFits(h.expiresAt)
            && text != [] && jobId != []
  {
  }

  lemma IssuedAsJoined(c: Crypto, wire: seq<Byte>, policy: Policy, subject: Text, jobId: Text, text: Text, t: int)
    requires Issue(c, policy, subject, jobId, text, t) == Some(wire)
    ensures var h := Issued(policy, GrantFor(policy.grants, subject).value, jobId, text, t);
            IssuedAs(c, wire, policy, subject, jobId, WithJoinedText(h)) <==> FactsReadable(h)
  {
    hide HandoffWire, Readable, FactsReadable;
    var h := Issued(policy, GrantFor(policy.grants, subject).value, jobId, text, t);
    IssueForm(c, wire, policy, subject, jobId, text, t);
    ReadableWhenJoined(h);
    JoinedWire(c, h);
  }

  /** Whatever handoff an issued wire also stands for, it is the issued one with its text joined. */
  lemma OnlyTheIssued(c: Crypto, wire: seq<Byte>, policy: Policy, subject: Text, jobId: Text, text: Text, t: int, q: Handoff)
    requires Ideal(c) && Issue(c, policy, subject, jobId, text, t) == Some(wire)
    requires IssuedAs(c, wire, policy, subject, jobId, q)
    ensures var h := Issued(policy, GrantFor(policy.grants, subject).value, jobId, text, t);
            q == WithJoinedText(h) && FactsReadable(h)
  {
    hide HandoffWire, Readable, FactsReadable, Ideal;
    var h := Issued(policy, GrantFor(policy.grants, subject).value, jobId, text, t);
    IssueForm(c, wire, policy, subject, jobId, text, t);
    IssueForm(c, wire, policy, subject, jobId, q.text, q.issuedAt);
    ReadableWhenJoined(q);
    SameFactsReadable(h, q);
    ReadableWhenJoined(h);
    JoinedWire(c, h);
    SameWireSameHandoff(c, wire, WithJoinedText(h), q);
  }

  lemma SameFactsReadable(h: Handoff, q: Handoff)
    requires q == h.(text := q.text, issuedAt := q.issuedAt, expiresAt := q.expiresAt)
    ensures FactsReadable(h) <==> FactsReadable(q)
  {
  }

  /** What becomes of every issued wire: it is accepted at `now` exactly when `t <= now < t + ttl` and
      neither the job id nor a text the policy gives holds a surrogate pair; as the handoff
      that was issued, its payload text with surrogate pairs joined; by the one validator its
      grant names and never by the other. */
  lemma IssuedIsAcceptedOnce(c: Crypto, wire: seq<Byte>, policy: Policy, subject: Text, jobId: Text, text: Text, t: int,
                             now: int)
    requires Ideal(c) && PolicyValid(policy)
    requires Issue(c, policy, subject, jobId, text, t) == Some(wire)
    ensures var h := Issued(policy, GrantFor(policy.grants, subject).value, jobId, text, t);
            var accepted := if t <= now < t + policy.ttl && FactsReadable(h) then Some(WithJoinedText(h)) else None;
            && Validate(c, wire, policy, subject, jobId, now) == (if h.pending then None else accepted)
            && ValidatePending(c, wire, policy, subject, jobId, now) == (if h.pending then accepted else None)
  {
    hide Validate, ValidatePending, Ideal, PolicyValid, FactsReadable, IssuedAs;
    var q := WithJoinedText(Issued(policy, GrantFor(policy.grants, subject).value, jobId, text, t));
    IssuedAsJoined(c, wire, policy, subject, jobId, text, t);
    ValidatorsAcceptExactlyIssued(c, wire, policy, subject, jobId, now, q);
    var a, b := Validate(c, wire, policy, subject, jobId, now), ValidatePending(c, wire, policy, subject, jobId, now);
    if a.Some? {
      ValidatorsAcceptExactlyIssued(c, wire, policy, subject, jobId, now, a.value);
      OnlyTheIssued(c, wire, policy, subject, jobId, text, t, a.value);
    }
    if b.Some? {
      ValidatorsAcceptExactlyIssued(c, wire, policy, subject, jobId, now, b.value);
      OnlyTheIssued(c, wire, policy, subject, jobId, text, t, b.value);
    }
  }
}
