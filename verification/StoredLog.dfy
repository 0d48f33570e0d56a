/** Where the lifecycle's log and the audit tables meet: over every run, with room judged as
    `PostgresAuditChain.append` judges it, the tables hold exactly the lifecycle's events, every
    append the lifecycle makes goes through, and the anchor takes the one for the other
    (geniusnew/audit_store.py, geniusnew/wiring.py). */
module StoredLog {
  import opened Prelude
  import opened Handoffs
  import opened AuditChain
  import opened AuditEvents
  import opened AuditStore
  import opened StoreBounds
  import opened Ledger
  import opened Service
  import opened ServiceWires
  import opened ServiceInvariant
  import opened ServiceHistory

  // ---------------------------------------------------------------- the world over an audit log

  /** The audit authority: how its records hash and its heads are signed, and how a lifecycle event is
      rendered as an audit event. */
  datatype Log = Log(scheme: Scheme<AuditEvent>, sign: HeadBody -> string, render: Event -> AuditEvent)

  ghost predicate RendersValid(render: Event -> AuditEvent) {
    forall e: Event :: InTime(e.occurredAt) ==> EventValid(render(e))
  }

  ghost predicate LogValid(l: Log) {
    HashesAreDigests(l.scheme) && SignsFor(l.scheme, l.sign) && RendersValid(l.render)
  }

  /** The two tables once all of these events are stored. */
  function ChainOf(l: Log, events: seq<Event>): (c: Chain)
    ensures |c.rows| == |c.heads| == |events| && AllBytes(c.rows)
  {
    if events == [] then NO_CHAIN
    else Appended(l.scheme, l.sign, ChainOf(l, events[..|events| - 1]), l.render(events[|events| - 1]))
  }

  /** The whole log still passes `_check_commit_size`. */
  predicate LogFits(l: Log, events: seq<Event>) {
    events == [] ||
    var c := ChainOf(l, events);
    CommitFits(HeadIn(c.heads[|c.heads| - 1]), RecordsOf(c.rows))
  }

  /** A lifecycle event is hashed as it is rendered. */
  function RenderedScheme(l: Log): Scheme<Event> { Through(l.scheme, l.render) }

  function WorldOver(l: Log, k: Keyring, policy: Policy, safe: Text -> Text): World {
    World(policy, safe, RenderedScheme(l), l.sign, events => LogFits(l, events),
          h => HandoffOnWire(k, h), r => ResultOnWire(k, r))
  }

  lemma FitsInCount(l: Log, events: seq<Event>)
    requires LogFits(l, events)
    ensures |events| <= MAX_COUNT
  {
    hide CommitFrame, RecordsOf;
  }

  /** Every theorem about worlds holds of this one. */
  lemma WorldOverValid(l: Log, k: Keyring, policy: Policy, safe: Text -> Text)
    requires LogValid(l) && PolicyValid(policy)
    ensures WorldValid(WorldOver(l, k, policy, safe)) && WiredBy(WorldOver(l, k, policy, safe), k)
  {
    hide PolicyValid, LogFits, HashesAreDigests, HandoffOnWire, ResultOnWire;
    ThroughKeepsDigests(l.scheme, l.render);
    forall events | LogFits(l, events)
      ensures |events| <= MAX_COUNT
    {
      FitsInCount(l, events);
    }
  }

  // ---------------------------------------------------------------- one append

  /** What `PostgresAuditChain.Append` asks of the tables and the event. */
  predicate Appends(l: Log, c: Chain, e: Event)
    requires AllBytes(c.rows)
  {
    && Readable(l.scheme, c)
    && CommitFits(NextHead(l.scheme, l.sign, c, l.render(e)), RecordsOf(c.rows) + [NextRecordOf(l.scheme, c, l.render(e))])
  }

  lemma ChainGrows(l: Log, events: seq<Event>, e: Event)
    ensures ChainOf(l, events + [e]) == Appended(l.scheme, l.sign, ChainOf(l, events), l.render(e))
  {
    assert (events + [e])[..|events + [e]| - 1] == events;
  }

  /** There is room for one more event exactly when its append passes the size check. */
  lemma RoomExactly(l: Log, events: seq<Event>, e: Event)
    ensures var c := ChainOf(l, events);
            LogFits(l, events + [e]) <==>
            CommitFits(NextHead(l.scheme, l.sign, c, l.render(e)), RecordsOf(c.rows) + [NextRecordOf(l.scheme, c, l.render(e))])
  {
    hide CommitFits, NextHead, NextRecordOf, ChainOf;
    ChainGrows(l, events, e);
    RecordsGrow(l.scheme, l.sign, ChainOf(l, events), l.render(e));
    LastHead(l, ChainOf(l, events), e);
  }

  lemma LastHead(l: Log, c: Chain, e: Event)
    ensures var next := Appended(l.scheme, l.sign, c, l.render(e));
            HeadIn(next.heads[|next.heads| - 1]) == NextHead(l.scheme, l.sign, c, l.render(e))
  {
  }

  // ---------------------------------------------------------------- over every run

  function Rendered(l: Log, events: seq<Event>): (r: seq<AuditEvent>)
    ensures |r| == |events| && forall i :: 0 <= i < |r| ==> r[i] == l.render(events[i])
  {
    seq(|events|, i requires 0 <= i < |events| => l.render(events[i]))
  }

  /** The tables hold the log as far as it goes, and every append went through. */
  ghost predicate Stored(l: Log, events: seq<Event>) {
    && AllInTime(events)
    && AfterAll(l.scheme, l.sign, Rendered(l, events)) == ChainOf(l, events)
    && LogFits(l, events)
  }

  lemma StoredIsReadable(l: Log, events: seq<Event>)
    requires LogValid(l) && Stored(l, events)
    ensures Readable(l.scheme, ChainOf(l, events))
  {
    hide HashesAreDigests, SignsFor, EventValid, Readable, CommitFits, LogFits, AfterAll, ChainOf;
    forall i | 0 <= i < |events|
      ensures EventValid(Rendered(l, events)[i])
    {
      assert InTime(events[i].occurredAt);
    }
    StoreAlwaysReads(l.scheme, l.sign, Rendered(l, events));
  }

  lemma StoredGrows(l: Log, events: seq<Event>, e: Event)
    requires LogValid(l) && Stored(l, events) && InTime(e.occurredAt) && LogFits(l, events + [e])
    ensures Stored(l, events + [e])
  {
    hide LogValid, LogFits, Readable, CommitFits, Appended, NextHead, NextRecordOf, ChainOf;
    StoredIsReadable(l, events);
    RoomExactly(l, events, e);
    ChainGrows(l, events, e);
    var r := Rendered(l, events + [e]);
    assert r[..|r| - 1] == Rendered(l, events);
  }

  /** Over every run the tables are the lifecycle's log: every append the lifecycle made went
      through, and the result can be read back and sent whole to the anchor. */
  lemma {:induction false} LogIsStored(l: Log, k: Keyring, policy: Policy, safe: Text -> Text, moves: seq<Move>)
    requires LogValid(l)
    ensures Stored(l, Run(WorldOver(l, k, policy, safe), moves).shared.store.events)
    ensures Readable(l.scheme, ChainOf(l, Run(WorldOver(l, k, policy, safe), moves).shared.store.events))
  {
    hide LogValid, Step, Apply, Readable, Stored, ChainOf, LogFits;
    var w := WorldOver(l, k, policy, safe);
    if moves == [] {
      NothingStored(l);
    } else {
      var n := |moves| - 1;
      var s := Run(w, moves[..n]);
      var events, next := s.shared.store.events, Run(w, moves).shared.store.events;
      LogIsStored(l, k, policy, safe, moves[..n]);
      StepAttempts(w, s, moves[n]);
      if next != events {
        ApplyLogs(w, s.shared.store, TxnOf(w, s, moves[n]).value);
        assert next == events + [next[|events|]];
        StoredGrows(l, events, next[|events|]);
      }
    }
    StoredIsReadable(l, Run(w, moves).shared.store.events);
  }

  lemma NothingStored(l: Log)
    ensures Stored(l, [])
  {
    assert Rendered(l, []) == [];
  }

  /** In every reachable state the lifecycle logs an event exactly when the tables take it. */
  lemma LogsExactlyWhatAppends(l: Log, k: Keyring, policy: Policy, safe: Text -> Text, moves: seq<Move>, e: Event)
    requires LogValid(l)
    ensures var w := WorldOver(l, k, policy, safe);
            var st := Run(w, moves).shared.store;
            Logged(w, st, e).Some? <==> InTime(e.occurredAt) && Appends(l, ChainOf(l, st.events), e)
  {
    hide LogValid, Stored, Readable, CommitFits, LogFits, ChainOf, Run, NextHead, NextRecordOf;
    LogIsStored(l, k, policy, safe, moves);
    RoomExactly(l, Run(WorldOver(l, k, policy, safe), moves).shared.store.events, e);
  }

  // ---------------------------------------------------------------- how much always fits

  lemma {:induction false} ChainSound(l: Log, events: seq<Event>)
    requires LogValid(l) && AllInTime(events) && |events| <= MAX_COUNT
    ensures SnapshotOk(l.scheme, ChainOf(l, events))
  {
    hide HashesAreDigests, SignsFor, EventValid, SnapshotOk, Appended;
    if events == [] {
      NothingIsReadable(l.scheme);
      ReadableIsSound(l.scheme, NO_CHAIN);
    } else {
      var n := |events| - 1;
      ChainSound(l, events[..n]);
      assert InTime(events[n].occurredAt);
      SnapshotGrows(l.scheme, l.sign, ChainOf(l, events[..n]), l.render(events[n]));
    }
  }

  lemma ReadableIsSound(s: Scheme<AuditEvent>, c: Chain)
    requires Readable(s, c)
    ensures SnapshotOk(s, c)
  {
  }

  lemma SoundRecordsSmall(s: Scheme<AuditEvent>, c: Chain, i: nat)
    requires SnapshotOk(s, c) && i < |c.rows| <= LOG_ROOM
    ensures RecordSmall(RecordsOf(c.rows)[i])
  {
    hide EventValid, RecordValue;
    assert RowHoldsEvent(c.rows[i]);
    assert FitsAt(s, RecordsOf(c.rows), 0, EmptyHash(), i);
    RecordCosts(RecordsOf(c.rows)[i]);
  }

  lemma SoundHead(s: Scheme<AuditEvent>, c: Chain)
    requires SnapshotOk(s, c) && c.rows != []
    ensures HeadShape(HeadIn(c.heads[|c.heads| - 1])) && HeadIn(c.heads[|c.heads| - 1]).count == |c.rows|
  {
    hide EventValid, Linked;
    assert HeadBinds(s, c, |c.rows| - 1);
  }

  /** Up to 7000 events in time always fit, whatever they say. */
  lemma FewEventsFit(l: Log, events: seq<Event>)
    requires LogValid(l) && AllInTime(events) && |events| <= LOG_ROOM
    ensures LogFits(l, events)
  {
    hide LogValid, SnapshotOk, CommitFits, RecordSmall, HeadShape, ChainOf;
    var c := ChainOf(l, events);
    ChainSound(l, events);
    if events != [] {
      SoundHead(l.scheme, c);
      forall i | 0 <= i < |c.rows|
        ensures RecordSmall(RecordsOf(c.rows)[i])
      {
        SoundRecordsSmall(l.scheme, c, i);
      }
      FewRecordsFit(HeadIn(c.heads[|c.heads| - 1]), RecordsOf(c.rows));
    }
  }

  /** So every reachable state has room for as many events as are missing to 7000. */
  lemma RunHasRoom(l: Log, k: Keyring, policy: Policy, safe: Text -> Text, moves: seq<Move>, n: nat)
    requires LogValid(l) && |Run(WorldOver(l, k, policy, safe), moves).shared.store.events| + n <= LOG_ROOM
    ensures RoomFor(WorldOver(l, k, policy, safe), Run(WorldOver(l, k, policy, safe), moves).shared.store, n)
  {
    hide LogValid, LogFits, Run, Readable, ChainOf, AfterAll;
    var w := WorldOver(l, k, policy, safe);
    var st := Run(w, moves).shared.store;
    LogIsStored(l, k, policy, safe, moves);
    forall more: seq<Event> | |more| <= n && AllInTime(more)
      ensures w.fits(st.events + more)
    {
      FewEventsFit(l, st.events + more);
    }
  }

  // ---------------------------------------------------------------- the anchor

  function RenderedRecord(l: Log, r: AuditRecord<Event>): AuditRecord<AuditEvent> {
    AuditRecord(r.index, l.render(r.event), r.previousHash, r.recordHash)
  }

  predicate SameRecords(l: Log, events: seq<Event>) {
    var stored, records := RecordsOf(ChainOf(l, events).rows), Records(RenderedScheme(l), events);
    |stored| == |records| && forall i :: 0 <= i < |stored| ==> stored[i] == RenderedRecord(l, records[i])
  }

  /** The stored rows are the lifecycle's records, rendered. */
  lemma {:induction false} RowsAreRecords(l: Log, events: seq<Event>)
    ensures SameRecords(l, events)
    ensures events != [] ==>
              HeadIn(ChainOf(l, events).heads[|events| - 1]) == HeadOf(l.sign, Records(RenderedScheme(l), events))
  {
    hide ChainOf, Records, SameRecords, Appended, NextHead, HeadOf, Through;
    if events == [] {
      NoRows(l);
    } else {
      var before, e := events[..|events| - 1], events[|events| - 1];
      assert events == before + [e];
      RowsAreRecords(l, before);
      ChainGrows(l, before, e);
      LastHead(l, ChainOf(l, before), e);
      NextIsRendered(l, before, e);
    }
  }

  lemma NoRows(l: Log)
    ensures SameRecords(l, [])
  {
  }

  lemma NextIsRendered(l: Log, events: seq<Event>, e: Event)
    requires SameRecords(l, events)
    ensures SameRecords(l, events + [e])
    ensures NextHead(l.scheme, l.sign, ChainOf(l, events), l.render(e)) ==
            HeadOf(l.sign, Records(RenderedScheme(l), events + [e]))
  {
    hide ChainOf, Records, Appended;
    var c, records := ChainOf(l, events), Records(RenderedScheme(l), events);
    RecordsAppend(RenderedScheme(l), events, e);
    ChainGrows(l, events, e);
    RecordsGrow(l.scheme, l.sign, c, l.render(e));
    if events != [] {
      assert RecordsOf(c.rows)[|events| - 1] == RenderedRecord(l, records[|events| - 1]);
    }
    assert NextRecordOf(l.scheme, c, l.render(e)) == RenderedRecord(l, NextRecord(RenderedScheme(l), records, e));
  }

  lemma SameChecks(l: Log, records: seq<AuditRecord<Event>>, stored: seq<AuditRecord<AuditEvent>>, head: AuditHead,
                   anchor: Commitment)
    requires |stored| == |records| && forall i :: 0 <= i < |stored| ==> stored[i] == RenderedRecord(l, records[i])
    ensures Verified(l.scheme, stored, head) <==> Verified(RenderedScheme(l), records, head)
    ensures Commit(l.scheme, anchor, head, stored) == Commit(RenderedScheme(l), anchor, head, records)
  {
    forall i | 0 <= i < |stored|
      ensures FitsAt(l.scheme, stored, 0, EmptyHash(), i) == FitsAt(RenderedScheme(l), records, 0, EmptyHash(), i)
    {
    }
  }

  /** `PostgresAuditChain.snapshot`: the head stored with the last record; only an empty log signs its own. */
  function SnapshotHead(l: Log, events: seq<Event>): AuditHead {
    if events == [] then SignHead(l.sign, 0, EmptyHash()) else HeadIn(ChainOf(l, events).heads[|events| - 1])
  }

  /** So the anchor makes of the stored rows exactly what the lifecycle says it makes of its log. */
  lemma AnchorsAlike(l: Log, k: Keyring, policy: Policy, safe: Text -> Text, events: seq<Event>, anchor: Commitment, ack: Ack)
    ensures Anchored(WorldOver(l, k, policy, safe), anchor, events, ack) ==
            var head := SnapshotHead(l, events);
            var answer := Commit(l.scheme, anchor, head, RecordsOf(ChainOf(l, events).rows));
            if ack == Undelivered || answer.None? then (anchor, false)
            else (answer.value, ack == Answered && answer.value == Commitment(head.count, head.headHash))
  {
    hide ChainOf, Records, Commit;
    var records := Records(RenderedScheme(l), events);
    RowsAreRecords(l, events);
    NoRecords(l);
    SameChecks(l, records, RecordsOf(ChainOf(l, events).rows), HeadOf(l.sign, records), anchor);
  }

  lemma NoRecords(l: Log)
    ensures HeadOf(l.sign, Records(RenderedScheme(l), [])) == SignHead(l.sign, 0, EmptyHash())
  {
  }
}
