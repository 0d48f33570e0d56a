/** The audit store is closed under append, and the anchor's state file never outgrows what a
    restart reads (geniusnew/audit_store.py:28-33, geniusnew/anchor_process.py:769-775). */
module StoreBounds {
  import opened Prelude
  import opened Json
  import opened AuditChain
  import opened AuditEvents
  import opened AnchorState
  import opened AuditStore

  // ---------------------------------------------------------------- head lines

  lemma HexPrints(s: string)
    requires IsHex(s, |s|)
    ensures |Print(Str(TextOf(s)))| == |s| + 2
  {
    UnescapedPrints(TextOf(s));
  }

  lemma StringPrints(t: Text)
    ensures Print(Str(t)) == PrintString(t)
  {
  }

  predicate HeadShape(h: AuditHead) {
    h.body.version == HEAD_VERSION && h.count >= 0 && IsDigest(h.headHash) && IsSignature(h.signature)
  }

  lemma ThreeFields(h: AuditHead)
    requires HeadShape(h)
    ensures |PrintFields(Field(Ascii("head_hash"), Str(TextOf(h.headHash)),
                         Field(Ascii("signature"), Str(TextOf(h.signature)),
                         Field(Ascii("version"), Str(TextOf(h.body.version)), NoFields))))| == ThreeFieldsCost()
  {
    hide Print, PrintFields, PrintString;
    StringPrints(TextOf(HEAD_VERSION));
    HexPrints(h.headHash);
    HexPrints(h.signature);
    var version := Field(Ascii("version"), Str(TextOf(h.body.version)), NoFields);
    FieldAdds(Ascii("version"), Str(TextOf(h.body.version)), NoFields);
    FieldAdds(Ascii("signature"), Str(TextOf(h.signature)), version);
    FieldAdds(Ascii("head_hash"), Str(TextOf(h.headHash)), Field(Ascii("signature"), Str(TextOf(h.signature)), version));
  }

  /** The part of a head line that no count changes. */
  function ThreeFieldsCost(): nat {
    |PrintString(Ascii("head_hash"))| + |PrintString(Ascii("signature"))| + |PrintString(Ascii("version"))|
    + |PrintString(TextOf(HEAD_VERSION))| + 201
  }

  /** Two heads' lines differ only by the digits of their counts. */
  lemma LineLength(h: AuditHead)
    requires HeadShape(h)
    ensures |HeadLine(h)| == |PrintString(Ascii("count"))| + |Digits(h.count)| + ThreeFieldsCost() + 5
  {
    hide PrintFields, PrintString, Digits, ThreeFieldsCost;
    ThreeFields(h);
    FieldAdds(Ascii("count"), Num(h.count),
              Field(Ascii("head_hash"), Str(TextOf(h.headHash)),
              Field(Ascii("signature"), Str(TextOf(h.signature)),
              Field(Ascii("version"), Str(TextOf(h.body.version)), NoFields))));
  }

  lemma LinesGrow(h: AuditHead, later: AuditHead)
    requires HeadShape(h) && HeadShape(later) && h.count <= later.count
    ensures |HeadLine(h)| <= |HeadLine(later)|
  {
    hide HeadLine, Digits;
    LineLength(h);
    LineLength(later);
    DigitsMonotone(h.count, later.count);
  }

  lemma AtMostQuotient(n: nat, unit: nat, total: nat)
    requires unit > 0 && n * unit <= total
    ensures n <= total / unit
  {
    var q := total / unit;
    if n > q {
      ProductGrowsLeft(q + 1, n, unit);
    }
  }

  lemma ProductGrows(n: nat, a: nat, b: nat)
    requires a <= b
    ensures n * a <= n * b
  {
  }

  /** Passing the size check at append keeps the table within what a read accepts. */
  lemma FitsStored(h: AuditHead)
    requires HeadShape(h) && h.count <= MAX_COUNT && h.count * |HeadLine(h)| <= MAX_STATE_BYTES
    ensures h.count <= MaxStoredRecords()
  {
    hide HeadLine, Digits, ThreeFieldsCost, PrintString;
    assert HeadShape(ShortestHead());
    LinesGrow(ShortestHead(), h);
    LineLength(ShortestHead());
    ProductGrows(h.count, |HeadLine(ShortestHead())|, |HeadLine(h)|);
    AtMostQuotient(h.count, |HeadLine(ShortestHead())|, MAX_STATE_BYTES);
  }

  // ---------------------------------------------------------------- the frame holds every event

  lemma FieldHolds(key: Text, v: Value, rest: Fields)
    ensures |Print(v)| <= |PrintFields(Field(key, v, rest))| && |PrintFields(rest)| <= |PrintFields(Field(key, v, rest))|
  {
    FieldAdds(key, v, rest);
  }

  lemma RecordHolds(r: AuditRecord<AuditEvent>)
    ensures |EventBytes(r.event)| <= |Print(RecordValue(r))|
  {
    hide PrintFields, EventValue;
    FieldHolds(Ascii("event"), EventValue(r.event), RecordValue(r).fields.rest);
  }

  lemma ItemsAdd(v: Value, tail: Items)
    ensures |PrintItems(Item(v, tail))| >= |Print(v)| + |PrintItems(tail)|
  {
  }

  lemma {:induction false} ItemsHold(rows: seq<Row>)
    requires AllBytes(rows)
    ensures SumSizes(rows) <= |PrintItems(RecordItems(RecordsOf(rows)))|
  {
    hide EventBytes, Print, PrintItems, RecordValue;
    if rows != [] {
      var records := RecordsOf(rows);
      assert records[1..] == RecordsOf(rows[1..]);
      ItemsHold(rows[1..]);
      RecordHolds(records[0]);
      ItemsAdd(RecordValue(records[0]), RecordItems(records[1..]));
    }
  }

  lemma FrameHolds(head: AuditHead, records: seq<AuditRecord<AuditEvent>>)
    ensures |PrintItems(RecordItems(records))| <= |Print(CommitFrame(head, records))|
  {
    hide PrintFields, PrintItems, RecordItems, HeadValue;
    var items := Arr(RecordItems(records));
    var last := Field(Ascii("records"), items, NoFields);
    var kind := Field(Ascii("kind"), Str(Ascii("commit")), last);
    var request := Field(Ascii("head"), HeadValue(head), kind);
    FieldHolds(Ascii("records"), items, NoFields);
    FieldHolds(Ascii("kind"), Str(Ascii("commit")), last);
    FieldHolds(Ascii("head"), HeadValue(head), kind);
    FieldHolds(Ascii("request"), Obj(request), NoFields);
    FieldHolds(Ascii("nonce"), Str(seq(64, _ => 48)), Field(Ascii("request"), Obj(request), NoFields));
  }

  // ---------------------------------------------------------------- how much always fits

  /** So many events fit one frame and the anchor's state file, whatever they say. */
  const LOG_ROOM := 7000

  const RECORD_COST := 8800

  lemma CountCost(n: nat)
    requires n <= LOG_ROOM
    ensures |Print(Num(n))| <= 10
  {
    if n > 0 {
      TimeCost(n);
    }
  }

  lemma RecordCosts(r: AuditRecord<AuditEvent>)
    requires EventValid(r.event) && 0 <= r.index <= LOG_ROOM && IsDigest(r.previousHash) && IsDigest(r.recordHash)
    ensures |Print(RecordValue(r))| <= RECORD_COST - 1
  {
    hide EventValid, PrintFields, EventValue;
    EventSize(r.event);
    CountCost(r.index);
    HexPrints(r.previousHash);
    HexPrints(r.recordHash);
    NoFieldsCost();
    var f := NoFields;
    KeyCost("record_hash", Str(TextOf(r.recordHash)), 66, f);
    f := Field(Ascii("record_hash"), Str(TextOf(r.recordHash)), f);
    KeyCost("previous_hash", Str(TextOf(r.previousHash)), 66, f);
    f := Field(Ascii("previous_hash"), Str(TextOf(r.previousHash)), f);
    KeyCost("index", Num(r.index), 10, f);
    f := Field(Ascii("index"), Num(r.index), f);
    KeyCost("event", EventValue(r.event), MAX_EVENT_BYTES, f);
  }

  predicate RecordSmall(r: AuditRecord<AuditEvent>) { |Print(RecordValue(r))| <= RECORD_COST - 1 }

  lemma {:induction false} ItemsCost(records: seq<AuditRecord<AuditEvent>>)
    requires forall i :: 0 <= i < |records| ==> RecordSmall(records[i])
    ensures |PrintItems(RecordItems(records))| <= RECORD_COST * |records|
  {
    hide Print, RecordValue;
    if records != [] {
      ItemsCost(records[1..]);
      assert RecordSmall(records[0]);
    }
  }

  lemma HeadCost(h: AuditHead)
    requires HeadShape(h) && h.count <= LOG_ROOM
    ensures |HeadLine(h)| <= 1000
  {
    hide PrintString, HeadLine;
    LineLength(h);
    CountCost(h.count);
    EscapeAtMost(Ascii("count"));
    EscapeAtMost(Ascii("head_hash"));
    EscapeAtMost(Ascii("signature"));
    EscapeAtMost(Ascii("version"));
    EscapeAtMost(TextOf(HEAD_VERSION));
  }

  lemma FrameCost(head: AuditHead, records: seq<AuditRecord<AuditEvent>>)
    requires |Print(HeadValue(head))| <= 1000
    ensures |Print(CommitFrame(head, records))| <= |PrintItems(RecordItems(records))| + 2000
  {
    hide PrintFields, PrintItems, RecordItems, HeadValue;
    var items := Arr(RecordItems(records));
    NoFieldsCost();
    WordLength("commit");
    UnescapedPrints(seq(64, _ => 48));
    var f := Field(Ascii("records"), items, NoFields);
    KeyCost("records", items, |PrintItems(RecordItems(records))| + 2, NoFields);
    KeyCost("kind", Str(Ascii("commit")), 74, f);
    f := Field(Ascii("kind"), Str(Ascii("commit")), f);
    KeyCost("head", HeadValue(head), 1000, f);
    f := Field(Ascii("head"), HeadValue(head), f);
    var request := Field(Ascii("request"), Obj(f), NoFields);
    KeyCost("request", Obj(f), |PrintFields(f)| + 2, NoFields);
    KeyCost("nonce", Str(seq(64, _ => 48)), 66, request);
  }

  lemma WordLength(s: string)
    ensures |Print(Str(Ascii(s)))| <= 12 * |s| + 2
  {
    EscapeAtMost(Ascii(s));
  }

  /** Up to 7000 valid records pass the size check under any head that counts them. */
  lemma FewRecordsFit(head: AuditHead, records: seq<AuditRecord<AuditEvent>>)
    requires HeadShape(head) && head.count == |records| <= LOG_ROOM
    requires forall i :: 0 <= i < |records| ==> RecordSmall(records[i])
    ensures CommitFits(head, records)
  {
    hide HeadShape, Print, CommitFrame, RecordSmall;
    HeadCost(head);
    assert |HeadLine(head)| == |Print(HeadValue(head))| + 1;
    ItemsCost(records);
    FrameCost(head, records);
    ProductGrows(head.count, |HeadLine(head)|, 1000);
  }

  // ---------------------------------------------------------------- closed under append

  lemma NextHeadVerifies(s: Scheme<AuditEvent>, sign: HeadBody -> string, c: Chain, e: AuditEvent)
    requires HashesAreDigests(s) && SignsFor(s, sign) && |c.rows| < MAX_COUNT
    ensures HeadVerifies(s, NextHead(s, sign, c, e)) && HeadShape(NextHead(s, sign, c, e))
  {
    var previous := if c.rows == [] then EmptyHash() else c.rows[|c.rows| - 1].recordHash;
    assert IsDigest(RecordHash(s, |c.rows|, e, previous));
  }

  lemma RecordsGrow(s: Scheme<AuditEvent>, sign: HeadBody -> string, c: Chain, e: AuditEvent)
    requires AllBytes(c.rows)
    ensures AllBytes(Appended(s, sign, c, e).rows)
    ensures RecordsOf(Appended(s, sign, c, e).rows) == RecordsOf(c.rows) + [NextRecordOf(s, c, e)]
  {
  }

  lemma LinkedGrows(s: Scheme<AuditEvent>, sign: HeadBody -> string, c: Chain, e: AuditEvent)
    requires HashesAreDigests(s) && SnapshotOk(s, c)
    ensures var next := RecordsOf(c.rows) + [NextRecordOf(s, c, e)];
            Linked(s, next, 0, EmptyHash()) && EndHash(next, EmptyHash()) == NextRecordOf(s, c, e).recordHash
  {
    hide RowHoldsEvent, HeadBinds;
    var records, r := RecordsOf(c.rows), NextRecordOf(s, c, e);
    LinkedSnoc(s, records, r, 0, EmptyHash());
    assert IsDigest(RecordHash(s, |c.rows|, e, r.previousHash));
    if c.rows != [] {
      assert FitsAt(s, records, 0, EmptyHash(), |records| - 1);
    }
  }

  /** Every signed prefix still binds, and the new head binds the whole. */
  lemma SnapshotGrows(s: Scheme<AuditEvent>, sign: HeadBody -> string, c: Chain, e: AuditEvent)
    requires HashesAreDigests(s) && SignsFor(s, sign) && SnapshotOk(s, c) && EventValid(e) && |c.rows| < MAX_COUNT
    ensures SnapshotOk(s, Appended(s, sign, c, e))
  {
    hide EventValid, Linked, HeadVerifies, RecordHash;
    NextHeadVerifies(s, sign, c, e);
    RecordsGrow(s, sign, c, e);
    LinkedGrows(s, sign, c, e);
    var next := Appended(s, sign, c, e);
    var n := |c.rows|;
    forall i | 0 <= i < |next.rows|
      ensures RowHoldsEvent(next.rows[i]) && HeadBinds(s, next, i)
    {
      if i < n {
        assert RowHoldsEvent(c.rows[i]) && HeadBinds(s, c, i);
      }
    }
  }

  lemma {:induction false} EventsSmall(rows: seq<Row>)
    requires forall i :: 0 <= i < |rows| ==> RowHoldsEvent(rows[i])
    ensures forall i :: 0 <= i < |rows| ==> SizeOf(rows[i].raw) <= MAX_EVENT_BYTES
  {
    hide EventValid, EventBytes;
    forall i | 0 <= i < |rows|
      ensures SizeOf(rows[i].raw) <= MAX_EVENT_BYTES
    {
      assert RowHoldsEvent(rows[i]);
      EventSize(rows[i].raw.event);
    }
  }

  /** If the tables can be read and an append goes through, the result can be read: no suffix ever
      makes every later restart fail. */
  lemma AppendStaysReadable(s: Scheme<AuditEvent>, sign: HeadBody -> string, c: Chain, e: AuditEvent)
    requires HashesAreDigests(s) && SignsFor(s, sign) && EventValid(e) && Readable(s, c)
    requires CommitFits(NextHead(s, sign, c, e), RecordsOf(c.rows) + [NextRecordOf(s, c, e)])
    ensures var next := Appended(s, sign, c, e);
            Readable(s, next) && CommitFits(HeadIn(next.heads[|next.heads| - 1]), RecordsOf(next.rows))
  {
    hide EventValid, HashesAreDigests, SignsFor, HeadLine, CommitFrame;
    hide MaxStoredRecords, HeadBinds, RowHoldsEvent, Verified, HeadShape;
    var next, head := Appended(s, sign, c, e), NextHead(s, sign, c, e);
    assert |c.rows| < MAX_COUNT;
    NextHeadVerifies(s, sign, c, e);
    SnapshotGrows(s, sign, c, e);
    RecordsGrow(s, sign, c, e);
    FitsStored(head);
    EventsSmall(next.rows);
    ItemsHold(next.rows);
    FrameHolds(head, RecordsOf(next.rows));
  }

  /** One append tried: refused whole, or stored whole. */
  ghost function Tried(s: Scheme<AuditEvent>, sign: HeadBody -> string, c: Chain, e: AuditEvent): Chain {
    if Readable(s, c) && CommitFits(NextHead(s, sign, c, e), RecordsOf(c.rows) + [NextRecordOf(s, c, e)])
    then Appended(s, sign, c, e) else c
  }

  ghost function AfterAll(s: Scheme<AuditEvent>, sign: HeadBody -> string, events: seq<AuditEvent>): Chain {
    if events == [] then NO_CHAIN else Tried(s, sign, AfterAll(s, sign, events[..|events| - 1]), events[|events| - 1])
  }

  lemma NothingIsReadable(s: Scheme<AuditEvent>)
    ensures Readable(s, NO_CHAIN)
  {
    hide MaxStoredRecords;
    RoomForNone();
  }

  lemma RoomForNone()
    ensures MaxStoredRecords() >= 0
  {
    hide HeadLine, ThreeFieldsCost, PrintString, Digits;
    assert HeadShape(ShortestHead());
    LineLength(ShortestHead());
    AtMostQuotient(0, |HeadLine(ShortestHead())|, MAX_STATE_BYTES);
  }

  /** Whatever is appended, the stored log can always be read back and sent whole to the anchor. */
  lemma {:induction false} StoreAlwaysReads(s: Scheme<AuditEvent>, sign: HeadBody -> string, events: seq<AuditEvent>)
    requires HashesAreDigests(s) && SignsFor(s, sign) && forall i :: 0 <= i < |events| ==> EventValid(events[i])
    ensures var c := AfterAll(s, sign, events);
            && Readable(s, c)
            && (c.rows != [] ==> CommitFits(HeadIn(c.heads[|c.heads| - 1]), RecordsOf(c.rows)))
  {
    hide Readable, EventValid, HashesAreDigests, SignsFor, CommitFits, Appended, NextHead, NextRecordOf;
    if events == [] {
      NothingIsReadable(s);
    } else {
      var n := |events| - 1;
      StoreAlwaysReads(s, sign, events[..n]);
      var c := AfterAll(s, sign, events[..n]);
      ReadableShape(s, c);
      if CommitFits(NextHead(s, sign, c, events[n]), RecordsOf(c.rows) + [NextRecordOf(s, c, events[n])]) {
        AppendStaysReadable(s, sign, c, events[n]);
      }
    }
  }

  lemma ReadableShape(s: Scheme<AuditEvent>, c: Chain)
    requires Readable(s, c)
    ensures |c.heads| == |c.rows| && AllBytes(c.rows)
  {
  }

  // ---------------------------------------------------------------- the anchor's state file

  lemma {:induction false} RisingCounts(heads: seq<AuditHead>)
    requires forall i :: 0 <= i < |heads| ==> HeadShape(heads[i]) && 1 <= heads[i].count
    requires forall i, j :: 0 <= i < j < |heads| ==> heads[i].count < heads[j].count
    ensures heads != [] ==> |heads| <= heads[|heads| - 1].count
  {
    if |heads| > 1 {
      RisingCounts(heads[..|heads| - 1]);
    }
  }

  /** Every line of a rising history is no longer than the last one's. */
  lemma {:induction false} FileAtMost(heads: seq<AuditHead>, last: AuditHead)
    requires HeadShape(last) && forall i :: 0 <= i < |heads| ==> HeadShape(heads[i]) && heads[i].count <= last.count
    ensures |FileOf(heads)| <= |heads| * |HeadLine(last)|
  {
    hide HeadLine, HeadShape;
    if heads != [] {
      FileAtMost(heads[..|heads| - 1], last);
      LinesGrow(heads[|heads| - 1], last);
      assert |heads| * |HeadLine(last)| == (|heads| - 1) * |HeadLine(last)| + |HeadLine(last)|;
    }
  }

  /** A strictly rising history whose last head passed the size check fits what a restart reads. */
  lemma StateFileFits(heads: seq<AuditHead>)
    requires heads != [] && forall i :: 0 <= i < |heads| ==> HeadShape(heads[i]) && 1 <= heads[i].count
    requires forall i, j :: 0 <= i < j < |heads| ==> heads[i].count < heads[j].count
    requires var last := heads[|heads| - 1]; last.count * |HeadLine(last)| <= MAX_STATE_BYTES
    ensures |FileOf(heads)| <= MAX_STATE_BYTES
  {
    hide HeadLine, HeadShape, FileOf;
    var last := heads[|heads| - 1];
    RisingCounts(heads);
    FileAtMost(heads, last);
    ProductGrowsLeft(|heads|, last.count, |HeadLine(last)|);
  }

  lemma ProductGrowsLeft(m: nat, n: nat, a: nat)
    requires m <= n
    ensures m * a <= n * a
  {
  }

  // ---------------------------------------------------------------- the anchor server, over every run

  predicate SizeChecked(h: AuditHead) { h.count * |HeadLine(h)| <= MAX_STATE_BYTES }

  /** Every commit the server was asked for had passed the sender's size check. */
  predicate AllChecked(ops: seq<ServerOp<AuditEvent>>) {
    forall i :: 0 <= i < |ops| && ops[i].Serve? && !ops[i].request.Ask? ==> SizeChecked(ops[i].request.head)
  }

  lemma VerifiedShape(s: Scheme<AuditEvent>, heads: seq<AuditHead>)
    requires HeadsRise(s, heads) && (heads != [] ==> 1 <= heads[0].count)
    ensures forall i :: 0 <= i < |heads| ==> HeadShape(heads[i]) && 1 <= heads[i].count
  {
    forall i | 0 <= i < |heads|
      ensures HeadShape(heads[i]) && 1 <= heads[i].count
    {
      assert HeadVerifies(s, heads[i]);
    }
  }

  lemma {:induction false} CheckedRunFits(s: Scheme<AuditEvent>, ops: seq<ServerOp<AuditEvent>>)
    returns (heads: seq<AuditHead>, torn: Text)
    requires AllChecked(ops)
    ensures Consistent(s, RunServer(s, ops), heads, torn) && |RunServer(s, ops).file| <= MAX_STATE_BYTES
  {
    hide HeadLine, HeadVerifies, ServerStep, FileOf, HeadShape;
    if ops == [] {
      heads, torn := RunIsConsistent(s, ops);
    } else {
      var n := |ops| - 1;
      var before := RunServer(s, ops[..n]);
      heads, torn := CheckedRunFits(s, ops[..n]);
      var standing := heads;
      heads, torn := StepKeepsConsistent(s, before, ops[n], heads, torn);
      if ServerStep(s, before, ops[n]).file != before.file {
        var reached := standing + [ops[n].request.head];
        VerifiedShape(s, reached);
        assert SizeChecked(reached[|reached| - 1]);
        StateFileFits(reached);
      }
    }
  }

  /** When every commit passed its size check, the only start that is refused is one on a line cut
      off by a failed write. */
  lemma RefusesOnlyTorn(s: Scheme<AuditEvent>, ops: seq<ServerOp<AuditEvent>>)
    requires AllChecked(ops)
    ensures var file := RunServer(s, ops).file;
            Loaded(s, file) == None <==> file != [] && file[|file| - 1] != NEWLINE
  {
    hide AllChecked, HeadLine, Loaded, RunServer;
    var heads, torn := CheckedRunFits(s, ops);
    RefusesOnlyTornOrTooLarge(s, ops);
  }
}
