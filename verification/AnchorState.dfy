/** The anchor's append-only state file and the server that answers from it
    (geniusnew/anchor_process.py): one canonical signed head per line, written before the answer. */
module AnchorState {
  import opened Prelude
  import opened Json
  import opened JsonRoundTrip
  import opened WireContract
  import opened AuditChain

  const NEWLINE: Code := 10
  const MAX_STATE_BYTES := 16 * 1024 * 1024

  // ---------------------------------------------------------------- a head as a line

  function TextOf(s: string): (t: Text)
    ensures |t| == |s| && forall i :: 0 <= i < |s| ==> t[i] == s[i] as int
  {
    seq(|s|, i requires 0 <= i < |s| => s[i] as int)
  }

  /** Nothing outside ASCII can be a version, digest or signature. */
  function StringOf(t: Text): Option<string> {
    if forall i :: 0 <= i < |t| ==> t[i] < 128 then Some(seq(|t|, i requires 0 <= i < |t| => (t[i] % 128) as char)) else None
  }

  function HeadValue(h: AuditHead): Value {
    Obj(Field(Ascii("count"), Num(h.count),
        Field(Ascii("head_hash"), Str(TextOf(h.headHash)),
        Field(Ascii("signature"), Str(TextOf(h.signature)),
        Field(Ascii("version"), Str(TextOf(h.body.version)), NoFields)))))
  }

  function HeadLine(h: AuditHead): Text { Print(HeadValue(h)) + [NEWLINE] }

  /** `_decode` and `_head`: one exact canonical object per line, with a head's four fields. */
  function ReadHead(line: Text): Option<AuditHead> {
    match DecodeCanonical(line)
    case Some(Obj(Field(a, Num(count), Field(b, Str(hash), Field(c, Str(signature), Field(d, Str(version), NoFields)))))) =>
      if a == Ascii("count") && b == Ascii("head_hash") && c == Ascii("signature") && d == Ascii("version")
         && StringOf(hash).Some? && StringOf(signature).Some? && StringOf(version).Some?
      then Some(AuditHead(HeadBody(StringOf(version).value, count, StringOf(hash).value), StringOf(signature).value))
      else None
    case _ => None
  }

  // ---------------------------------------------------------------- loading

  function Split(data: Text): (lines: seq<Text>)
    ensures lines != []
  {
    if data == [] then [[]]
    else if data[0] == NEWLINE then [[]] + Split(data[1..])
    else var rest := Split(data[1..]); [[data[0]] + rest[0]] + rest[1..]
  }

  /** The outcome of checking lines in order: refused, or the head reached so far. */
  function CheckLines<E>(s: Scheme<E>, lines: seq<Text>): Option<Option<AuditHead>> {
    if lines == [] then Some(None)
    else match CheckLines(s, lines[..|lines| - 1])
    case None => None
    case Some(before) =>
      match ReadHead(lines[|lines| - 1])
      case None => None
      case Some(head) =>
        if HeadVerifies(s, head) && (before.Some? ==> before.value.count < head.count) then Some(Some(head)) else None
  }

  function CommitmentOf(head: Option<AuditHead>): Commitment {
    if head.None? then NothingCommitted() else Commitment(head.value.count, head.value.headHash)
  }

  /** `_load`: `None` is a refusal to start. */
  function Loaded<E>(s: Scheme<E>, data: Text): Option<Commitment> {
    if |data| > MAX_STATE_BYTES then None
    else if data == [] then Some(NothingCommitted())
    else if data[|data| - 1] != NEWLINE then None
    else match CheckLines(s, Split(data[..|data| - 1]))
    case None => None
    case Some(head) => Some(CommitmentOf(head))
  }

  method Load<E>(s: Scheme<E>, data: Text) returns (r: Option<Commitment>)
    ensures r == Loaded(s, data)
  {
    hide ReadHead, HeadVerifies, Split;
    if |data| > MAX_STATE_BYTES {
      return None;
    }
    if data == [] {
      return Some(NothingCommitted());
    }
    if data[|data| - 1] != NEWLINE {
      return None;
    }
    var lines := Split(data[..|data| - 1]);
    var head: Option<AuditHead> := None;
    for i := 0 to |lines|
      invariant CheckLines(s, lines[..i]) == Some(head)
    {
      assert lines[..i + 1][..i] == lines[..i];
      var current := ReadHead(lines[i]);
      if current.None? || !HeadVerifies(s, current.value)
         || (head.Some? && current.value.count <= head.value.count) {
        RefusedStaysRefused(s, lines, i + 1);
        return None;
      }
      head := current;
    }
    assert lines[..|lines|] == lines;
    return Some(CommitmentOf(head));
  }

  lemma {:induction false} RefusedStaysRefused<E>(s: Scheme<E>, lines: seq<Text>, n: nat)
    requires n <= |lines| && CheckLines(s, lines[..n]) == None
    ensures CheckLines(s, lines) == None
  {
    if n == |lines| {
      assert lines[..n] == lines;
    } else {
      assert lines[..|lines| - 1][..n] == lines[..n];
      RefusedStaysRefused(s, lines[..|lines| - 1], n);
    }
  }

  // ---------------------------------------------------------------- a file of whole lines loads

  function FileOf(heads: seq<AuditHead>): Text {
    if heads == [] then [] else FileOf(heads[..|heads| - 1]) + HeadLine(heads[|heads| - 1])
  }

  function LinesOf(heads: seq<AuditHead>): seq<Text> {
    if heads == [] then [] else LinesOf(heads[..|heads| - 1]) + [Print(HeadValue(heads[|heads| - 1]))]
  }

  function Last(heads: seq<AuditHead>): Option<AuditHead> {
    if heads == [] then None else Some(heads[|heads| - 1])
  }

  /** Verified heads of strictly rising counts. */
  ghost predicate HeadsRise<E>(s: Scheme<E>, heads: seq<AuditHead>) {
    && (forall i :: 0 <= i < |heads| ==> HeadVerifies(s, heads[i]))
    && (forall i, j :: 0 <= i < j < |heads| ==> heads[i].count < heads[j].count)
  }

  lemma {:induction false} SplitLine(line: Text, rest: Text)
    requires Printable(line)
    ensures Split(line + [NEWLINE] + rest) == [line] + Split(rest)
  {
    var data := line + [NEWLINE] + rest;
    if line == [] {
      assert data[1..] == rest;
    } else {
      assert data[1..] == line[1..] + [NEWLINE] + rest;
      SplitLine(line[1..], rest);
      assert [line[0]] + line[1..] == line;
    }
  }

  lemma {:induction false} SplitWhole(line: Text)
    requires Printable(line)
    ensures Split(line) == [line]
  {
    if line != [] {
      SplitWhole(line[1..]);
      assert [line[0]] + line[1..] == line;
    }
  }

  lemma {:induction false} SplitFile(heads: seq<AuditHead>, rest: Text)
    ensures Split(FileOf(heads) + rest) == LinesOf(heads) + Split(rest)
    decreases |heads|
  {
    if heads == [] {
      assert FileOf(heads) + rest == rest;
    } else {
      var before, line := heads[..|heads| - 1], Print(HeadValue(heads[|heads| - 1]));
      assert FileOf(heads) + rest == FileOf(before) + (line + [NEWLINE] + rest);
      SplitFile(before, line + [NEWLINE] + rest);
      PrintIsPrintable(HeadValue(heads[|heads| - 1]));
      SplitLine(line, rest);
    }
  }

  lemma AsciiHead<E>(s: Scheme<E>, h: AuditHead)
    requires HeadVerifies(s, h)
    ensures forall i :: 0 <= i < |h.body.version| ==> h.body.version[i] as int < 128
    ensures forall i :: 0 <= i < |h.headHash| ==> h.headHash[i] as int < 128
    ensures forall i :: 0 <= i < |h.signature| ==> h.signature[i] as int < 128
  {
  }

  lemma StringBack(s: string)
    requires forall i :: 0 <= i < |s| ==> s[i] as int < 128
    ensures PairFree(TextOf(s)) && StringOf(TextOf(s)) == Some(s)
  {
    AsciiIsPairFree(TextOf(s));
    assert StringOf(TextOf(s)).value == s;
  }

  lemma HeadKeysRise()
    ensures Less(Ascii("count"), Ascii("head_hash")) && Less(Ascii("head_hash"), Ascii("signature"))
    ensures Less(Ascii("signature"), Ascii("version"))
    ensures PairFree(Ascii("count")) && PairFree(Ascii("head_hash"))
    ensures PairFree(Ascii("signature")) && PairFree(Ascii("version"))
  {
    AsciiIsPairFree(Ascii("count"));
    AsciiIsPairFree(Ascii("head_hash"));
    AsciiIsPairFree(Ascii("signature"));
    AsciiIsPairFree(Ascii("version"));
  }

  lemma CountFits(count: int)
    requires 0 <= count <= MAX_COUNT
    ensures IntFits(count)
  {
    assert Pow10(7) == 10 * Pow10(6) == 100 * Pow10(5) == 1000 * Pow10(4) == 10000 * Pow10(3) == 10000000;
    FewerDigits(count, 7);
  }

  predicate FieldsForm(fields: Fields) { FieldsSorted(fields) && PairFreeFields(fields) && FieldsFit(fields) }

  lemma FieldForm(key: Text, value: Value, rest: Fields)
    requires PairFree(key) && (value.Num? || value.Str?) && PairFreeValue(value) && IntsFit(value)
    requires FieldsForm(rest) && (rest.Field? ==> Less(key, rest.key))
    ensures FieldsForm(Field(key, value, rest))
  {
    if rest.Field? {
      BelowAll(key, rest);
    }
  }

  lemma TwoFieldsForm(c: Text, d: Text, v: Text, w: Text)
    requires Less(c, d) && PairFree(c) && PairFree(d) && PairFree(v) && PairFree(w)
    ensures FieldsForm(Field(c, Str(v), Field(d, Str(w), NoFields)))
  {
    FieldForm(d, Str(w), NoFields);
    FieldForm(c, Str(v), Field(d, Str(w), NoFields));
  }

  lemma HeadForm(h: AuditHead)
    requires PairFree(TextOf(h.headHash)) && PairFree(TextOf(h.signature)) && PairFree(TextOf(h.body.version))
    requires IntFits(h.count)
    ensures WellFormed(HeadValue(h))
  {
    HeadKeysRise();
    TwoFieldsForm(Ascii("signature"), Ascii("version"), TextOf(h.signature), TextOf(h.body.version));
    var tail := HeadValue(h).fields.rest.rest;
    FieldForm(Ascii("head_hash"), Str(TextOf(h.headHash)), tail);
    FieldForm(Ascii("count"), Num(h.count), HeadValue(h).fields.rest);
  }

  /** A written head is read back as it was. */
  lemma HeadReadsBack<E>(s: Scheme<E>, h: AuditHead)
    requires HeadVerifies(s, h)
    ensures ReadHead(Print(HeadValue(h))) == Some(h)
  {
    AsciiHead(s, h);
    StringBack(h.body.version);
    StringBack(h.headHash);
    StringBack(h.signature);
    CountFits(h.count);
    HeadForm(h);
    PrintIsCanonical(HeadValue(h));
  }

  lemma NextLineChecks<E>(s: Scheme<E>, lines: seq<Text>, line: Text, before: Option<AuditHead>, head: AuditHead)
    requires CheckLines(s, lines) == Some(before) && ReadHead(line) == Some(head)
    requires HeadVerifies(s, head) && (before.Some? ==> before.value.count < head.count)
    ensures CheckLines(s, lines + [line]) == Some(Some(head))
  {
    assert (lines + [line])[..|lines|] == lines;
  }

  lemma {:induction false} LinesCheck<E>(s: Scheme<E>, heads: seq<AuditHead>)
    requires HeadsRise(s, heads)
    ensures CheckLines(s, LinesOf(heads)) == Some(Last(heads))
  {
    if heads != [] {
      var n := |heads| - 1;
      LinesCheck(s, heads[..n]);
      HeadReadsBack(s, heads[n]);
      NextLineChecks(s, LinesOf(heads[..n]), Print(HeadValue(heads[n])), Last(heads[..n]), heads[n]);
    }
  }

  lemma FileEnd(heads: seq<AuditHead>)
    requires heads != []
    ensures var n, file := |heads| - 1, FileOf(heads);
            file != [] && file[|file| - 1] == NEWLINE
            && file[..|file| - 1] == FileOf(heads[..n]) + Print(HeadValue(heads[n]))
  {
  }

  /** A file of whole lines loads as the last of its heads. */
  lemma WholeFileLoads<E>(s: Scheme<E>, heads: seq<AuditHead>)
    requires HeadsRise(s, heads) && |FileOf(heads)| <= MAX_STATE_BYTES
    ensures Loaded(s, FileOf(heads)) == Some(CommitmentOf(Last(heads)))
  {
    if heads != [] {
      var n := |heads| - 1;
      FileEnd(heads);
      SplitFile(heads[..n], Print(HeadValue(heads[n])));
      PrintIsPrintable(HeadValue(heads[n]));
      SplitWhole(Print(HeadValue(heads[n])));
      LinesCheck(s, heads);
    }
  }

  /** A torn line stops the anchor from starting at all. */
  lemma TornFileRefused<E>(s: Scheme<E>, file: Text, torn: Text)
    requires torn != [] && torn[|torn| - 1] != NEWLINE
    ensures Loaded(s, file + torn) == None
  {
    assert (file + torn)[|file + torn| - 1] == torn[|torn| - 1];
  }

  // ---------------------------------------------------------------- nothing else loads

  function Glued(lines: seq<Text>): Text {
    if lines == [] then [] else lines[0] + [NEWLINE] + Glued(lines[1..])
  }

  lemma {:induction false} GluedSnoc(lines: seq<Text>, line: Text)
    ensures Glued(lines + [line]) == Glued(lines) + line + [NEWLINE]
  {
    if lines != [] {
      assert (lines + [line])[1..] == lines[1..] + [line];
      GluedSnoc(lines[1..], line);
    }
  }

  lemma {:induction false} SplitGlues(data: Text)
    ensures Glued(Split(data)) == data + [NEWLINE]
  {
    if data != [] {
      var rest := Split(data[1..]);
      SplitGlues(data[1..]);
      if data[0] == NEWLINE {
        assert ([[]] + rest)[1..] == rest;
        assert Glued(Split(data)) == [NEWLINE] + Glued(rest);
      } else {
        assert ([[data[0]] + rest[0]] + rest[1..])[1..] == rest[1..];
        assert Glued(Split(data)) == [data[0]] + Glued(rest);
      }
      assert data + [NEWLINE] == [data[0]] + (data[1..] + [NEWLINE]);
    }
  }

  lemma TextBack(t: Text)
    requires StringOf(t).Some?
    ensures TextOf(StringOf(t).value) == t
  {
  }

  /** A line that reads as a head is that head's line. */
  lemma ReadIsWritten(line: Text, h: AuditHead)
    requires ReadHead(line) == Some(h)
    ensures line == Print(HeadValue(h))
  {
    hide DecodeCanonical, StringOf, TextOf, Ascii;
    var v := DecodeCanonical(line).value;
    CanonicalIsAPrint(line, v);
    TextBack(v.fields.rest.value.s);
    TextBack(v.fields.rest.rest.value.s);
    TextBack(v.fields.rest.rest.rest.value.s);
  }

  lemma {:induction false} CheckedLines<E>(s: Scheme<E>, lines: seq<Text>) returns (heads: seq<AuditHead>)
    requires CheckLines(s, lines).Some?
    ensures HeadsRise(s, heads) && Glued(lines) == FileOf(heads) && CheckLines(s, lines).value == Last(heads)
  {
    hide ReadHead, HeadVerifies, HeadsRise, HeadValue, Print, FileOf;
    if lines == [] {
      EmptyRises(s);
      heads := [];
    } else {
      var n := |lines| - 1;
      var before := CheckedLines(s, lines[..n]);
      var head := ReadHead(lines[n]).value;
      heads := before + [head];
      NextRises(s, before, head);
      ReadIsWritten(lines[n], head);
      GluedSnoc(lines[..n], lines[n]);
      assert lines[..n] + [lines[n]] == lines;
      assert FileOf(before) + HeadLine(head) == FileOf(before) + Print(HeadValue(head)) + [NEWLINE];
    }
  }

  lemma NextRises<E>(s: Scheme<E>, heads: seq<AuditHead>, head: AuditHead)
    requires HeadsRise(s, heads) && HeadVerifies(s, head) && (heads != [] ==> Last(heads).value.count < head.count)
    ensures HeadsRise(s, heads + [head]) && FileOf(heads + [head]) == FileOf(heads) + HeadLine(head)
  {
    hide HeadVerifies, HeadLine;
    assert (heads + [head])[..|heads|] == heads;
  }

  /** The state files an anchor starts from are exactly the empty one and those of whole lines, one
      verified head each and their counts rising; it resumes from the last. */
  lemma LoadsExactly<E>(s: Scheme<E>, data: Text, c: Commitment)
    ensures Loaded(s, data) == Some(c) <==>
            |data| <= 16_777_216
            && exists heads :: HeadsRise(s, heads) && data == FileOf(heads) && c == CommitmentOf(Last(heads))
  {
    if Loaded(s, data) == Some(c) {
      var heads := LoadedFile(s, data);
      assert HeadsRise(s, heads) && data == FileOf(heads) && c == CommitmentOf(Last(heads));
    }
    if |data| <= 16_777_216 {
      forall heads | HeadsRise(s, heads) && data == FileOf(heads) && c == CommitmentOf(Last(heads))
        ensures Loaded(s, data) == Some(c)
      {
        WholeFileLoads(s, heads);
      }
    }
  }

  lemma LoadedFile<E>(s: Scheme<E>, data: Text) returns (heads: seq<AuditHead>)
    requires Loaded(s, data).Some?
    ensures HeadsRise(s, heads) && data == FileOf(heads) && Loaded(s, data).value == CommitmentOf(Last(heads))
  {
    hide HeadsRise, Split, CheckLines;
    if data == [] {
      heads := [];
      EmptyRises(s);
    } else {
      var whole := data[..|data| - 1];
      heads := CheckedLines(s, Split(whole));
      SplitGlues(whole);
      assert whole + [NEWLINE] == data;
    }
  }

  lemma EmptyRises<E>(s: Scheme<E>)
    ensures HeadsRise(s, []) && FileOf([]) == []
  {
  }

  // ---------------------------------------------------------------- a line, spelled out

  lemma {:induction false} EscapeVerbatim(t: Text)
    requires forall i :: 0 <= i < |t| ==> 0x20 <= t[i] <= 0x7E && t[i] != 0x22 && t[i] != 0x5C
    ensures Escape(t) == t
  {
    if t != [] {
      EscapeVerbatim(t[1..]);
      EscapesSpelled(t[0]);
      assert t == [t[0]] + t[1..];
    }
  }

  predicate Verbatim(s: string) {
    forall i :: 0 <= i < |s| ==> ' ' <= s[i] <= '~' && s[i] != '\"' && s[i] != '\\'
  }

  lemma Quoted(s: string)
    requires Verbatim(s)
    ensures PrintString(TextOf(s)) == PrintString(Ascii(s)) == ['\"' as int] + Ascii(s) + ['\"' as int]
  {
    EscapeVerbatim(TextOf(s));
    assert TextOf(s) == Ascii(s);
  }

  lemma TextsVerbatim<E>(s: Scheme<E>, h: AuditHead)
    requires HeadVerifies(s, h)
    ensures h.body.version == "geniusnew-audit-head-v2" && Verbatim(h.headHash) && Verbatim(h.signature)
  {
  }

  /** A head's line, character for character. */
  lemma HeadLineSpelled<E>(s: Scheme<E>, h: AuditHead)
    requires HeadVerifies(s, h)
    ensures var Q := (text: string) => ['\"' as int] + Ascii(text) + ['\"' as int];
            HeadLine(h) ==
            ['{' as int] + (Q("count") + [':' as int] + PrintInt(h.count)
            + ([',' as int] + (Q("head_hash") + [':' as int] + Q(h.headHash)
            + ([',' as int] + (Q("signature") + [':' as int] + Q(h.signature)
            + ([',' as int] + (Q("version") + [':' as int] + Q("geniusnew-audit-head-v2"))))))))
            + ['}' as int] + ['\n' as int]
  {
    hide PrintString, PrintInt, PrintFields, Ascii, TextOf, HeadVerifies, Verbatim;
    TextsVerbatim(s, h);
    KeysVerbatim();
    Quoted("count");
    Quoted("head_hash");
    Quoted("signature");
    Quoted("version");
    Quoted("geniusnew-audit-head-v2");
    Quoted(h.headHash);
    Quoted(h.signature);
    var fields := HeadValue(h).fields;
    FieldsSpelled(fields.key, fields.value, fields.rest);
    FieldsSpelled(fields.rest.key, fields.rest.value, fields.rest.rest);
    FieldsSpelled(fields.rest.rest.key, fields.rest.rest.value, fields.rest.rest.rest);
    FieldsSpelled(fields.rest.rest.rest.key, fields.rest.rest.rest.value, NoFields);
  }

  lemma KeysVerbatim()
    ensures Verbatim("count") && Verbatim("head_hash") && Verbatim("signature") && Verbatim("version")
    ensures Verbatim("geniusnew-audit-head-v2")
  {
  }

  // ---------------------------------------------------------------- the server, over every run

  /** How far the write of a new head line got: durably down and answered, or some of its bytes
      and then the end of the process. */
  datatype Write = Durable | Torn(bytes: nat)

  datatype Request<E> =
    | Ask
    | CommitAll(head: AuditHead, records: seq<AuditRecord<E>>)
    | CommitDelta(fromCount: int, head: AuditHead, records: seq<AuditRecord<E>>)

  datatype ServerOp<E> = Serve(request: Request<E>, write: Write) | Kill | Start

  /** `memory` is the anchor of a live process; `answered` is every state a client was told. */
  datatype Server = Server(file: Text, memory: Option<Commitment>, answered: seq<Commitment>)

  function Handle<E>(s: Scheme<E>, at: Commitment, request: Request<E>): Option<Commitment> {
    match request
    case Ask => Some(at)
    case CommitAll(head, records) => Commit(s, at, head, records)
    case CommitDelta(fromCount, head, records) =>
      if fromCount != at.count then None else ApplyDelta(s, at, at, head, records)
  }

  function ServerStep<E>(s: Scheme<E>, server: Server, op: ServerOp<E>): Server {
    match op
    case Kill => server.(memory := None)
    case Start => if server.memory.Some? then server else server.(memory := Loaded(s, server.file))
    case Serve(request, write) =>
      if server.memory.None? then server
      else match Handle(s, server.memory.value, request)
      case None => server
      case Some(to) =>
        if to == server.memory.value then server.(answered := server.answered + [to])
        else match write
        case Durable =>
          Server(server.file + HeadLine(request.head), Some(to), server.answered + [to])
        case Torn(bytes) =>
          Server(server.file + HeadLine(request.head)[..Min(bytes, |HeadLine(request.head)|)], None, server.answered)
  }

  function RunServer<E>(s: Scheme<E>, ops: seq<ServerOp<E>>): Server {
    if ops == [] then Server([], None, []) else ServerStep(s, RunServer(s, ops[..|ops| - 1]), ops[|ops| - 1])
  }

  /** `heads` are the whole lines of the file, and `torn` what a cut-off write left after them. */
  ghost predicate Consistent<E>(s: Scheme<E>, server: Server, heads: seq<AuditHead>, torn: Text) {
    && HeadsRise(s, heads) && (heads != [] ==> 1 <= heads[0].count)
    && server.file == FileOf(heads) + torn
    && (torn != [] ==> torn[|torn| - 1] != NEWLINE)
    && (server.memory.Some? ==> torn == [] && server.memory.value == CommitmentOf(Last(heads)))
    && (forall i :: 0 <= i < |server.answered| ==> AtOrBefore(server.answered[i], heads))
  }

  predicate AtOrBefore(a: Commitment, heads: seq<AuditHead>) {
    var last := CommitmentOf(Last(heads));
    a.count <= last.count && (a.count == last.count ==> a == last)
  }

  lemma LineEnd(h: AuditHead, bytes: nat)
    requires 0 < bytes < |HeadLine(h)|
    ensures HeadLine(h)[..bytes][bytes - 1] != NEWLINE
  {
    PrintIsPrintable(HeadValue(h));
  }

  lemma LaterKeeps(heads: seq<AuditHead>, head: AuditHead, a: Commitment)
    requires AtOrBefore(a, heads) && CommitmentOf(Last(heads)).count < head.count
    ensures AtOrBefore(a, heads + [head])
  {
  }

  /** What a request that moves the anchor moves it to. */
  lemma MovesForward<E>(s: Scheme<E>, at: Commitment, request: Request<E>)
    requires Handle(s, at, request).Some? && Handle(s, at, request).value != at
    ensures !request.Ask? && HeadVerifies(s, request.head)
    ensures Handle(s, at, request).value == Commitment(request.head.count, request.head.headHash)
    ensures at.count < request.head.count
  {
  }

  lemma AppendedRises<E>(s: Scheme<E>, heads: seq<AuditHead>, head: AuditHead)
    requires HeadsRise(s, heads) && HeadVerifies(s, head) && CommitmentOf(Last(heads)).count < head.count
    ensures HeadsRise(s, heads + [head]) && FileOf(heads + [head]) == FileOf(heads) + HeadLine(head)
  {
    assert (heads + [head])[..|heads|] == heads;
  }

  /** The whole line got down: answered or not, the file stands for the new head. */
  lemma WholeLineKeepsConsistent<E>(s: Scheme<E>, server: Server, heads: seq<AuditHead>, head: AuditHead, next: Server)
    requires Consistent(s, server, heads, []) && HeadVerifies(s, head)
    requires CommitmentOf(Last(heads)).count < head.count
    requires next.file == server.file + HeadLine(head)
    requires next.memory.Some? ==> next.memory.value == Commitment(head.count, head.headHash)
    requires next.answered == server.answered || next.answered == server.answered + [Commitment(head.count, head.headHash)]
    ensures Consistent(s, next, heads + [head], [])
  {
    hide HeadLine, HeadVerifies, HeadsRise, FileOf;
    AppendedRises(s, heads, head);
    assert server.file == FileOf(heads);
    forall i | 0 <= i < |next.answered|
      ensures AtOrBefore(next.answered[i], heads + [head])
    {
      if i < |server.answered| {
        LaterKeeps(heads, head, server.answered[i]);
      }
    }
  }

  lemma CutLineKeepsConsistent<E>(s: Scheme<E>, server: Server, heads: seq<AuditHead>, head: AuditHead, bytes: nat)
    requires Consistent(s, server, heads, []) && bytes < |HeadLine(head)|
    ensures Consistent(s, Server(server.file + HeadLine(head)[..bytes], None, server.answered), heads, HeadLine(head)[..bytes])
  {
    assert server.file == FileOf(heads);
    if bytes > 0 {
      LineEnd(head, bytes);
    }
  }

  /** The file grew by no more than the line of a head that continues it. */
  ghost predicate GrewBy<E>(s: Scheme<E>, before: Text, after: Text, heads: seq<AuditHead>, request: Request<E>) {
    && !request.Ask? && HeadsRise(s, heads + [request.head]) && 1 <= (heads + [request.head])[0].count
    && before <= after && |after| <= |FileOf(heads + [request.head])|
  }

  lemma MoveKeepsConsistent<E>(s: Scheme<E>, server: Server, request: Request<E>, write: Write, heads: seq<AuditHead>)
    returns (heads': seq<AuditHead>, torn': Text)
    requires Consistent(s, server, heads, []) && server.memory.Some?
    requires Handle(s, server.memory.value, request).Some?
    requires Handle(s, server.memory.value, request).value != server.memory.value
    ensures Consistent(s, ServerStep(s, server, Serve(request, write)), heads', torn') && heads <= heads'
    ensures GrewBy(s, server.file, ServerStep(s, server, Serve(request, write)).file, heads, request)
  {
    hide HeadLine, HeadVerifies, FileOf, Handle, AtOrBefore;
    MovesForward(s, server.memory.value, request);
    var head := request.head;
    var line := HeadLine(head);
    var next := ServerStep(s, server, Serve(request, write));
    AppendedRises(s, heads, head);
    if write.Torn? && write.bytes < |line| {
      heads', torn' := heads, line[..write.bytes];
      CutLineKeepsConsistent(s, server, heads, head, write.bytes);
    } else {
      heads', torn' := heads + [head], [];
      assert line[..|line|] == line;
      WholeLineKeepsConsistent(s, server, heads, head, next);
    }
  }

  lemma StepKeepsConsistent<E>(s: Scheme<E>, server: Server, op: ServerOp<E>, heads: seq<AuditHead>, torn: Text)
    returns (heads': seq<AuditHead>, torn': Text)
    requires Consistent(s, server, heads, torn)
    ensures Consistent(s, ServerStep(s, server, op), heads', torn') && heads <= heads'
    ensures ServerStep(s, server, op).file == server.file
            || (op.Serve? && GrewBy(s, server.file, ServerStep(s, server, op).file, heads, op.request))
  {
    heads', torn' := heads, torn;
    match op
    case Kill =>
    case Start =>
      if server.memory.None? {
        FileLoads(s, server, heads, torn);
      }
    case Serve(request, write) =>
      if server.memory.Some? && Handle(s, server.memory.value, request).Some? {
        if Handle(s, server.memory.value, request).value != server.memory.value {
          heads', torn' := MoveKeepsConsistent(s, server, request, write, heads);
        }
      }
  }

  lemma FileLoads<E>(s: Scheme<E>, server: Server, heads: seq<AuditHead>, torn: Text)
    requires Consistent(s, server, heads, torn)
    ensures Loaded(s, server.file) ==
            if torn != [] || |server.file| > MAX_STATE_BYTES then None else Some(CommitmentOf(Last(heads)))
  {
    if torn != [] {
      TornFileRefused(s, FileOf(heads), torn);
    } else {
      assert FileOf(heads) + torn == FileOf(heads);
      if |server.file| <= MAX_STATE_BYTES {
        WholeFileLoads(s, heads);
      }
    }
  }

  lemma {:induction false} RunIsConsistent<E>(s: Scheme<E>, ops: seq<ServerOp<E>>) returns (heads: seq<AuditHead>, torn: Text)
    ensures Consistent(s, RunServer(s, ops), heads, torn)
  {
    if ops == [] {
      heads, torn := [], [];
    } else {
      var n := |ops| - 1;
      heads, torn := RunIsConsistent(s, ops[..n]);
      heads, torn := StepKeepsConsistent(s, RunServer(s, ops[..n]), ops[n], heads, torn);
    }
  }

  /** After any run of commits, cut-off writes, kills and restarts: a live process never runs
      ahead of its file, and a start either refuses or resumes at or after everything a client
      was ever told. */
  lemma NeverBehindAnAnswer<E>(s: Scheme<E>, ops: seq<ServerOp<E>>, a: Commitment)
    ensures var server := RunServer(s, ops);
            && (server.memory.Some? && |server.file| <= MAX_STATE_BYTES ==> Loaded(s, server.file) == server.memory)
            && (a in server.answered && Loaded(s, server.file).Some? ==>
                  var c := Loaded(s, server.file).value;
                  a.count <= c.count && (a.count == c.count ==> a == c))
  {
    var heads, torn := RunIsConsistent(s, ops);
    FileLoads(s, RunServer(s, ops), heads, torn);
  }

  /** The only refusals: a line cut off by a failed write, or a file beyond its bound. */
  lemma RefusesOnlyTornOrTooLarge<E>(s: Scheme<E>, ops: seq<ServerOp<E>>)
    ensures var file := RunServer(s, ops).file;
            Loaded(s, file) == None <==>
            |file| > MAX_STATE_BYTES || (file != [] && file[|file| - 1] != NEWLINE)
  {
    var heads, torn := RunIsConsistent(s, ops);
    FileLoads(s, RunServer(s, ops), heads, torn);
    if torn != [] {
      assert (FileOf(heads) + torn)[|FileOf(heads) + torn| - 1] == torn[|torn| - 1];
    } else if heads != [] {
      assert FileOf(heads) + torn == FileOf(heads);
      FileEnd(heads);
    }
  }

  /** The process that serves: its anchor in memory while it lives, its file always. `write` is
      what the disk makes of an append, decided outside the program. */
  class AnchorServer<!E> {
    const scheme: Scheme<E>
    var file: Text
    var anchor: AuditAnchor?<E>
    ghost var answered: seq<Commitment>

    ghost predicate Valid()
      reads this, anchor
    {
      anchor != null ==> anchor.scheme == scheme
    }

    ghost function View(): Server
      reads this, anchor
    {
      Server(file, if anchor == null then None else Some(anchor.Committed()), answered)
    }

    constructor (scheme: Scheme<E>)
      ensures Valid() && View() == RunServer(scheme, []) && this.scheme == scheme
    {
      this.scheme := scheme;
      file, anchor, answered := [], null, [];
    }

    method Start()
      requires Valid() && anchor == null
      modifies this
      ensures Valid() && View() == ServerStep(scheme, old(View()), ServerOp<E>.Start)
      ensures anchor != null ==> fresh(anchor)
    {
      var loaded := Load(scheme, file);
      if loaded.Some? {
        var resumed := new AuditAnchor(scheme);
        resumed.count, resumed.headHash := loaded.value.count, loaded.value.headHash;
        anchor := resumed;
      }
    }

    /** One request answered, and written down first if it moved the anchor. When the write
        fails the process ends unanswered, so memory never runs ahead of the file. */
    method Answer(request: Request<E>, write: Write) returns (reply: Option<Commitment>)
      requires Valid() && anchor != null
      modifies this, anchor
      ensures Valid() && View() == ServerStep(scheme, old(View()), Serve(request, write))
      ensures answered == if reply.Some? then old(answered) + [reply.value] else old(answered)
      ensures var before := old(anchor.Committed());
              var to := if request.Ask? then before else Commitment(request.head.body.count, request.head.body.headHash);
              var granted := match request
                case Ask => true
                case CommitAll(head, records) =>
                  && Verified(scheme, records, head) && before.count <= head.body.count
                  && (head.body.count == before.count ==> head.body.headHash == before.headHash)
                  && (0 < before.count < head.body.count ==> records[before.count - 1].recordHash == before.headHash)
                case CommitDelta(fromCount, head, records) =>
                  fromCount == before.count && VerifiedExtension(scheme, records, head, before.count, before.headHash);
              var line := if granted && to != before then HeadLine(request.head) else [];
              && (write.Durable? || line == [] ==>
                    && reply == (if granted then Some(to) else None) && file == old(file) + line
                    && anchor == old(anchor) && anchor.Committed() == (if granted then to else before))
              && (write.Torn? && line != [] ==>
                    reply == None && anchor == null && file == old(file) + line[..Min(write.bytes, |line|)])
    {
      var before := anchor.Committed();
      match request {
        case Ask =>
          reply := Some(before);
        case CommitAll(head, records) =>
          reply := anchor.CommitChain(head, records);
        case CommitDelta(fromCount, head, records) =>
          if fromCount != before.count {
            reply := None;
          } else {
            reply := anchor.CommitDelta(before, head, records);
          }
      }
      if reply.Some? && anchor.Committed() != before {
        var line := HeadLine(request.head);
        if write.Torn? {
          file := file + line[..Min(write.bytes, |line|)];
          anchor, reply := null, None;
          return;
        }
        file := file + line;
      }
      if reply.Some? {
        answered := answered + [reply.value];
      }
    }
  }
}
