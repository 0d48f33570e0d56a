/** The audit log in its two tables, and the bounds that keep it usable: what can be appended can
    be read back, sent whole to the anchor, and survives in the anchor's state file
    (geniusnew/audit_store.py, geniusnew/anchor_process.py). */
module AuditStore {
  import opened Prelude
  import opened Json
  import opened AuditChain
  import opened AuditEvents
  import opened AnchorState

  const MAX_REQUEST_BYTES := 64 * 1024 * 1024

  // ---------------------------------------------------------------- the tables

  /** Stored bytes: the exact canonical bytes of an event, or anything else. */
  datatype Stored = Bytes(event: AuditEvent) | Damaged(size: nat)

  datatype Row = Row(index: int, previousHash: string, recordHash: string, raw: Stored)

  datatype HeadRow = HeadRow(count: int, version: string, headHash: string, signature: string, createdAt: int)

  /** Both tables in key order. */
  datatype Chain = Chain(rows: seq<Row>, heads: seq<HeadRow>)

  const NO_CHAIN := Chain([], [])

  function SizeOf(raw: Stored): nat { if raw.Bytes? then |EventBytes(raw.event)| else raw.size }

  function SumSizes(rows: seq<Row>): nat {
    if rows == [] then 0 else SizeOf(rows[0].raw) + SumSizes(rows[1..])
  }

  /** `_event`: only the exact bytes of a valid event are one. */
  predicate RowHoldsEvent(row: Row) { row.raw.Bytes? && EventValid(row.raw.event) }

  predicate AllBytes(rows: seq<Row>) { forall i :: 0 <= i < |rows| ==> rows[i].raw.Bytes? }

  function RecordOf(row: Row): AuditRecord<AuditEvent>
    requires row.raw.Bytes?
  {
    AuditRecord(row.index, row.raw.event, row.previousHash, row.recordHash)
  }

  function RecordsOf(rows: seq<Row>): (records: seq<AuditRecord<AuditEvent>>)
    requires AllBytes(rows)
    ensures |records| == |rows| && forall i :: 0 <= i < |rows| ==> records[i] == RecordOf(rows[i])
  {
    seq(|rows|, i requires 0 <= i < |rows| => RecordOf(rows[i]))
  }

  function HeadIn(h: HeadRow): AuditHead { AuditHead(HeadBody(h.version, h.count, h.headHash), h.signature) }

  /** One head for every prefix, signed when its record was appended. */
  predicate HeadBinds(s: Scheme<AuditEvent>, c: Chain, i: nat)
    requires i < |c.rows| && i < |c.heads|
  {
    var h := c.heads[i];
    && h.count == i + 1
    && c.rows[i].raw.Bytes? && h.createdAt == c.rows[i].raw.event.occurredAt
    && HeadVerifies(s, HeadIn(h))
    && h.headHash == c.rows[i].recordHash
  }

  predicate SnapshotOk(s: Scheme<AuditEvent>, c: Chain) {
    && |c.rows| <= MAX_COUNT && |c.heads| == |c.rows|
    && AllBytes(c.rows) && (forall i :: 0 <= i < |c.rows| ==> RowHoldsEvent(c.rows[i]))
    && (forall i :: 0 <= i < |c.rows| ==> HeadBinds(s, c, i))
    && (c.rows != [] ==> Verified(s, RecordsOf(c.rows), HeadIn(c.heads[|c.heads| - 1])))
  }

  function ShortestHead(): AuditHead { AuditHead(HeadBody(HEAD_VERSION, 0, EmptyHash()), seq(128, _ => '0')) }

  /** Most heads a state file of the shortest possible lines could hold. */
  function MaxStoredRecords(): int { Min(MAX_COUNT, MAX_STATE_BYTES / |HeadLine(ShortestHead())|) }

  predicate WithinBounds(c: Chain) {
    && |c.rows| <= MaxStoredRecords() && |c.heads| <= MaxStoredRecords()
    && (forall i :: 0 <= i < |c.rows| ==> SizeOf(c.rows[i].raw) <= MAX_EVENT_BYTES)
    && SumSizes(c.rows) <= MAX_REQUEST_BYTES
  }

  predicate Readable(s: Scheme<AuditEvent>, c: Chain) { WithinBounds(c) && SnapshotOk(s, c) }

  /** The head stored for a prefix of `n` records that ends in `row`. */
  ghost predicate StandsFor(s: Scheme<AuditEvent>, h: HeadRow, row: Row, n: int) {
    && row.raw.Bytes? && EventValid(row.raw.event)
    && row.index == n - 1 && row.recordHash == s.hash(n - 1, row.raw.event, row.previousHash)
    && h.createdAt == row.raw.event.occurredAt
    && s.verifies(HeadBody("geniusnew-audit-head-v2", n, row.recordHash), h.signature)
  }

  lemma SnapshotMeans(s: Scheme<AuditEvent>, c: Chain)
    ensures SnapshotOk(s, c) ==>
              |c.heads| == |c.rows| <= 1_000_000 && forall i :: 0 <= i < |c.rows| ==> StandsFor(s, c.heads[i], c.rows[i], i + 1)
  {
    hide EventValid;
    forall i | SnapshotOk(s, c) && 0 <= i < |c.rows|
      ensures StandsFor(s, c.heads[i], c.rows[i], i + 1)
    {
      assert RowHoldsEvent(c.rows[i]) && HeadBinds(s, c, i);
      assert FitsAt(s, RecordsOf(c.rows), 0, EmptyHash(), i);
    }
  }

  // ---------------------------------------------------------------- reading, as it runs

  /** `_stored_snapshot`. */
  method StoredSnapshot(s: Scheme<AuditEvent>, c: Chain) returns (r: Option<(Option<AuditHead>, seq<AuditRecord<AuditEvent>>)>)
    ensures r.Some? <==> SnapshotOk(s, c)
    ensures r.Some? ==> r.value.1 == RecordsOf(c.rows)
                        && r.value.0 == if c.rows == [] then None else Some(HeadIn(c.heads[|c.heads| - 1]))
    ensures r.Some? ==> |c.heads| == |c.rows| <= 1_000_000 && forall i :: 0 <= i < |c.rows| ==> StandsFor(s, c.heads[i], c.rows[i], i + 1)
  {
    hide EventValid, HeadVerifies, Linked, StandsFor;
    SnapshotMeans(s, c);
    if |c.rows| > MAX_COUNT || |c.heads| > MAX_COUNT {
      return None;
    }
    var records: seq<AuditRecord<AuditEvent>> := [];
    for i := 0 to |c.rows|
      invariant forall k :: 0 <= k < i ==> RowHoldsEvent(c.rows[k])
      invariant |records| == i && forall k :: 0 <= k < i ==> records[k] == RecordOf(c.rows[k])
    {
      if !RowHoldsEvent(c.rows[i]) {
        return None;
      }
      records := records + [RecordOf(c.rows[i])];
    }
    if |c.heads| != |records| {
      return None;
    }
    for i := 0 to |c.heads|
      invariant forall k :: 0 <= k < i ==> HeadStands(s, c, k)
    {
      var h := c.heads[i];
      if h.count != i + 1 || h.createdAt != records[i].event.occurredAt || !HeadVerifies(s, HeadIn(h)) {
        assert !HeadBinds(s, c, i);
        return None;
      }
    }
    assert records == RecordsOf(c.rows);
    if records == [] {
      return Some((None, records));
    }
    var head := HeadIn(c.heads[|c.heads| - 1]);
    var verified := Verify(s, records, head, None);
    if !verified {
      return None;
    }
    for i := 0 to |c.heads|
      invariant forall k :: 0 <= k < i ==> HeadBinds(s, c, k)
    {
      assert HeadStands(s, c, i);
      if c.heads[i].headHash != records[i].recordHash {
        assert !HeadBinds(s, c, i);
        return None;
      }
    }
    return Some((Some(head), records));
  }

  /** A head that verifies, not yet compared with its record. */
  predicate HeadStands(s: Scheme<AuditEvent>, c: Chain, i: nat)
    requires i < |c.rows| && i < |c.heads|
  {
    var h := c.heads[i];
    h.count == i + 1 && c.rows[i].raw.Bytes? && h.createdAt == c.rows[i].raw.event.occurredAt && HeadVerifies(s, HeadIn(h))
  }

  // ---------------------------------------------------------------- what the anchor must carry

  function RecordValue(r: AuditRecord<AuditEvent>): Value {
    Obj(Field(Ascii("event"), EventValue(r.event),
        Field(Ascii("index"), Num(r.index),
        Field(Ascii("previous_hash"), Str(TextOf(r.previousHash)),
        Field(Ascii("record_hash"), Str(TextOf(r.recordHash)), NoFields)))))
  }

  function RecordItems(records: seq<AuditRecord<AuditEvent>>): Items
    decreases |records|
  {
    if records == [] then NoItems else Item(RecordValue(records[0]), RecordItems(records[1..]))
  }

  /** A commit of the whole chain, in its envelope. */
  function CommitFrame(head: AuditHead, records: seq<AuditRecord<AuditEvent>>): Value {
    Obj(Field(Ascii("nonce"), Str(seq(64, _ => 48)),
        Field(Ascii("request"),
              Obj(Field(Ascii("head"), HeadValue(head),
                  Field(Ascii("kind"), Str(Ascii("commit")),
                  Field(Ascii("records"), Arr(RecordItems(records)), NoFields)))), NoFields)))
  }

  /** `_check_commit_size`. */
  predicate CommitFits(head: AuditHead, records: seq<AuditRecord<AuditEvent>>) {
    && 0 <= head.count <= MAX_COUNT
    && |Print(CommitFrame(head, records))| <= MAX_REQUEST_BYTES
    && head.count * |HeadLine(head)| <= MAX_STATE_BYTES
  }

  // ---------------------------------------------------------------- appending

  function NextRecordOf(s: Scheme<AuditEvent>, c: Chain, e: AuditEvent): AuditRecord<AuditEvent> {
    var previous := if c.rows == [] then EmptyHash() else c.rows[|c.rows| - 1].recordHash;
    AuditRecord(|c.rows|, e, previous, RecordHash(s, |c.rows|, e, previous))
  }

  function NextHead(s: Scheme<AuditEvent>, sign: HeadBody -> string, c: Chain, e: AuditEvent): AuditHead {
    SignHead(sign, |c.rows| + 1, NextRecordOf(s, c, e).recordHash)
  }

  function Appended(s: Scheme<AuditEvent>, sign: HeadBody -> string, c: Chain, e: AuditEvent): Chain {
    var r, h := NextRecordOf(s, c, e), NextHead(s, sign, c, e);
    Chain(c.rows + [Row(r.index, r.previousHash, r.recordHash, Bytes(e))],
          c.heads + [HeadRow(h.count, h.body.version, h.headHash, h.signature, e.occurredAt)])
  }

  class PostgresAuditChain {
    const scheme: Scheme<AuditEvent>
    const sign: HeadBody -> string
    var rows: seq<Row>
    var heads: seq<HeadRow>

    function Contents(): Chain
      reads this
    {
      Chain(rows, heads)
    }

    constructor (scheme: Scheme<AuditEvent>, sign: HeadBody -> string)
      ensures Contents() == NO_CHAIN && this.scheme == scheme && this.sign == sign
    {
      this.scheme, this.sign := scheme, sign;
      rows, heads := [], [];
    }

    /** `_read`: sizes before contents, then every record and every signed prefix. */
    method Read() returns (r: Option<(Option<AuditHead>, seq<AuditRecord<AuditEvent>>)>)
      ensures r.Some? <==> Readable(scheme, Contents())
      ensures r.Some? ==> r.value.1 == RecordsOf(rows)
                          && r.value.0 == if rows == [] then None else Some(HeadIn(heads[|heads| - 1]))
    {
      hide SnapshotOk, MaxStoredRecords, StandsFor, SizeOf, SumSizes;
      if |rows| > MaxStoredRecords() || |heads| > MaxStoredRecords() {
        return None;
      }
      if exists i :: 0 <= i < |rows| && SizeOf(rows[i].raw) > MAX_EVENT_BYTES {
        return None;
      }
      if SumSizes(rows) > MAX_REQUEST_BYTES {
        return None;
      }
      r := StoredSnapshot(scheme, Contents());
    }

    method Append(e: AuditEvent) returns (ok: bool)
      requires EventValid(e)
      modifies this
      ensures ok <==> && Readable(scheme, old(Contents()))
                      && CommitFits(NextHead(scheme, sign, old(Contents()), e),
                                    RecordsOf(old(rows)) + [NextRecordOf(scheme, old(Contents()), e)])
      ensures Contents() == if ok then Appended(scheme, sign, old(Contents()), e) else old(Contents())
      ensures ok <==>
              var n, head := |old(rows)| + 1, NextHead(scheme, sign, old(Contents()), e);
              && Readable(scheme, old(Contents()))
              && n <= 1_000_000 && n * |HeadLine(head)| <= 16_777_216
              && |Print(CommitFrame(head, RecordsOf(old(rows)) + [NextRecordOf(scheme, old(Contents()), e)]))| <= 67_108_864
    {
      hide SnapshotOk, WithinBounds, HeadLine, CommitFrame, EventValid;
      var read := Read();
      if read.None? {
        return false;
      }
      var records := read.value.1;
      var index := |records|;
      var previousHash := if records == [] then EmptyHash() else records[|records| - 1].recordHash;
      var record := AuditRecord(index, e, previousHash, RecordHash(scheme, index, e, previousHash));
      var head := SignHead(sign, index + 1, record.recordHash);
      ok := CommitFits(head, records + [record]);
      if ok {
        rows := rows + [Row(index, previousHash, record.recordHash, Bytes(e))];
        heads := heads + [HeadRow(head.count, head.body.version, head.headHash, head.signature, e.occurredAt)];
      }
    }
  }
}
