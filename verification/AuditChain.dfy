/** The hash-linked audit log, its full and incremental verification, and the anchor
    that commits to it (geniusnew/audit_chain.py).

    SHA-256 of a canonical record and the Ed25519 head check are parameters, gathered in a
    `Scheme`. Where a theorem needs it, no two of the records it is about collide. */
module AuditChain {
  import opened Prelude

  const MAX_COUNT: int := 1_000_000
  const MAX_DELTA_RECORDS: int := 8192
  const HEAD_VERSION: string := "geniusnew-audit-head-v2"

  predicate IsHex(s: string, n: nat) {
    |s| == n && forall i :: 0 <= i < n ==> '0' <= s[i] <= '9' || 'a' <= s[i] <= 'f'
  }

  predicate IsDigest(s: string) { IsHex(s, 64) }

  /** The hash an empty log ends in: sixty-four zeros. */
  function EmptyHash(): (h: string)
    ensures IsDigest(h) && |h| == 64 && forall i :: 0 <= i < 64 ==> h[i] == '0'
  {
    seq(64, _ => '0')
  }

  predicate IsSignature(s: string) { IsHex(s, 128) }

  datatype AuditRecord<E> = AuditRecord(index: int, event: E, previousHash: string, recordHash: string)

  datatype HeadBody = HeadBody(version: string, count: int, headHash: string)

  datatype AuditHead = AuditHead(body: HeadBody, signature: string) {
    const count := body.count
    const headHash := body.headHash
  }

  datatype Scheme<!E> = Scheme(hash: (int, E, string) -> string, verifies: (HeadBody, string) -> bool)

  function RecordHash<E>(s: Scheme<E>, index: int, event: E, previousHash: string): string {
    s.hash(index, event, previousHash)
  }

  /** What hashing yields has the shape of a digest. */
  ghost predicate HashesAreDigests<E(!new)>(s: Scheme<E>) {
    forall i, e, p :: IsDigest(RecordHash(s, i, e, p))
  }

  /** The scheme of events that are rendered before they are hashed. */
  function Through<E, F>(s: Scheme<E>, render: F -> E): Scheme<F> {
    Scheme((i, e, p) => s.hash(i, render(e), p), s.verifies)
  }

  lemma ThroughKeepsDigests<E(!new), F(!new)>(s: Scheme<E>, render: F -> E)
    requires HashesAreDigests(s)
    ensures HashesAreDigests(Through(s, render))
  {
    forall i, e, p
      ensures IsDigest(RecordHash(Through(s, render), i, e, p))
    {
      assert IsDigest(RecordHash(s, i, render(e), p));
    }
  }

  // ---------------------------------------------------------------- what a log must satisfy

  function EndHash<E>(records: seq<AuditRecord<E>>, from: string): string {
    if records == [] then from else records[|records| - 1].recordHash
  }

  predicate RecordFits<E>(s: Scheme<E>, r: AuditRecord<E>, position: int, previous: string) {
    && IsDigest(r.previousHash)
    && IsDigest(r.recordHash)
    && r.index == position
    && r.previousHash == previous
    && r.recordHash == RecordHash(s, r.index, r.event, r.previousHash)
  }

  predicate FitsAt<E>(s: Scheme<E>, records: seq<AuditRecord<E>>, base: int, from: string, i: nat)
    requires i < |records|
  {
    RecordFits(s, records[i], base + i, if i == 0 then from else records[i - 1].recordHash)
  }

  /** `records` continue a log of `base` records that ends in `from`. */
  predicate Linked<E>(s: Scheme<E>, records: seq<AuditRecord<E>>, base: int, from: string) {
    forall i :: 0 <= i < |records| ==> FitsAt(s, records, base, from, i)
  }

  predicate HeadVerifies<E>(s: Scheme<E>, head: AuditHead) {
    && head.body.version == HEAD_VERSION
    && 0 <= head.count <= MAX_COUNT
    && IsDigest(head.headHash)
    && IsSignature(head.signature)
    && s.verifies(head.body, head.signature)
  }

  predicate Verified<E>(s: Scheme<E>, records: seq<AuditRecord<E>>, head: AuditHead) {
    && HeadVerifies(s, head)
    && |records| == head.count
    && Linked(s, records, 0, EmptyHash())
    && EndHash(records, EmptyHash()) == head.headHash
  }

  predicate VerifiedExtension<E>(s: Scheme<E>, records: seq<AuditRecord<E>>, head: AuditHead,
                                 fromCount: int, fromHash: string) {
    && HeadVerifies(s, head)
    && 0 <= fromCount <= MAX_COUNT
    && IsDigest(fromHash)
    && |records| == head.count - fromCount
    && |records| <= MAX_DELTA_RECORDS
    && Linked(s, records, fromCount, fromHash)
    && EndHash(records, fromHash) == head.headHash
  }

  /** What an anchor holds. */
  datatype Commitment = Commitment(count: int, headHash: string)

  function NothingCommitted(): Commitment { Commitment(0, EmptyHash()) }

  /** Only descent is compared here: never a number alone. */
  predicate Continues<E>(a: Commitment, records: seq<AuditRecord<E>>, head: AuditHead)
    requires |records| == head.count
  {
    && a.count <= head.count
    && (head.count == a.count ==> head.headHash == a.headHash)
    && (0 < a.count < head.count ==> records[a.count - 1].recordHash == a.headHash)
  }

  // ---------------------------------------------------------------- the checks as the log runs them

  /** A chain link by link: position, the hash before it, and the hash it must have. */
  lemma LinkByLink<E>(s: Scheme<E>, records: seq<AuditRecord<E>>, base: int, from: string)
    ensures Linked(s, records, base, from) <==>
            forall i: nat :: i < |records| ==>
              && IsHex(records[i].previousHash, 64) && IsHex(records[i].recordHash, 64) && records[i].index == base + i
              && records[i].previousHash == (if i == 0 then from else records[i - 1].recordHash)
              && records[i].recordHash == s.hash(base + i, records[i].event, records[i].previousHash)
  {
    if Linked(s, records, base, from) {
      forall i: nat | i < |records|
        ensures && IsHex(records[i].previousHash, 64) && IsHex(records[i].recordHash, 64) && records[i].index == base + i
                && records[i].previousHash == (if i == 0 then from else records[i - 1].recordHash)
                && records[i].recordHash == s.hash(base + i, records[i].event, records[i].previousHash)
      {
        assert FitsAt(s, records, base, from, i);
      }
    } else {
      var i: nat :| i < |records| && !FitsAt(s, records, base, from, i);
      assert !RecordFits(s, records[i], base + i, if i == 0 then from else records[i - 1].recordHash);
    }
  }

  method VerifyLinks<E>(s: Scheme<E>, records: seq<AuditRecord<E>>, base: int, from: string) returns (ok: bool)
    ensures ok <==> Linked(s, records, base, from)
    ensures ok <==>
            forall i: nat :: i < |records| ==>
              && IsHex(records[i].previousHash, 64) && IsHex(records[i].recordHash, 64) && records[i].index == base + i
              && records[i].previousHash == (if i == 0 then from else records[i - 1].recordHash)
              && records[i].recordHash == s.hash(base + i, records[i].event, records[i].previousHash)
  {
    LinkByLink(s, records, base, from);
    for position := 0 to |records|
      invariant forall i :: 0 <= i < position ==> FitsAt(s, records, base, from, i)
    {
      var record := records[position];
      var expectedPrevious := if position == 0 then from else records[position - 1].recordHash;
      if !IsDigest(record.previousHash) || !IsDigest(record.recordHash)
         || record.index != base + position
         || record.previousHash != expectedPrevious
         || record.recordHash != RecordHash(s, record.index, record.event, record.previousHash) {
        assert !FitsAt(s, records, base, from, position);
        return false;
      }
    }
    return true;
  }

  lemma LinkedSnoc<E>(s: Scheme<E>, records: seq<AuditRecord<E>>, r: AuditRecord<E>, base: int, from: string)
    ensures Linked(s, records + [r], base, from) <==>
            Linked(s, records, base, from) && RecordFits(s, r, base + |records|, EndHash(records, from))
  {
    LinkedConcat(s, records, [r], base, from);
    assert FitsAt(s, [r], base + |records|, EndHash(records, from), 0)
      <==> RecordFits(s, r, base + |records|, EndHash(records, from));
  }

  /** Extensions compose and split at any point. */
  lemma LinkedConcat<E>(s: Scheme<E>, left: seq<AuditRecord<E>>, right: seq<AuditRecord<E>>, base: int, from: string)
    ensures Linked(s, left + right, base, from) <==>
            Linked(s, left, base, from) && Linked(s, right, base + |left|, EndHash(left, from))
    ensures EndHash(left + right, from) == EndHash(right, EndHash(left, from))
  {
    var all, middle, position := left + right, EndHash(left, from), base + |left|;
    forall i | 0 <= i < |left|
      ensures FitsAt(s, all, base, from, i) == FitsAt(s, left, base, from, i)
    {
    }
    forall i | 0 <= i < |right|
      ensures FitsAt(s, all, base, from, |left| + i) == FitsAt(s, right, position, middle, i)
    {
    }
    if Linked(s, left, base, from) && Linked(s, right, position, middle) {
      forall k | 0 <= k < |all|
        ensures FitsAt(s, all, base, from, k)
      {
        if |left| <= k {
          assert FitsAt(s, right, position, middle, k - |left|);
          assert k == |left| + (k - |left|);
        }
      }
    }
  }

  method Verify<E>(s: Scheme<E>, records: seq<AuditRecord<E>>, head: AuditHead, anchor: Option<Commitment>)
    returns (ok: bool)
    ensures ok <==> Verified(s, records, head) && (anchor.Some? ==> Continues(anchor.value, records, head))
    ensures ok <==>
            && head.body.version == "geniusnew-audit-head-v2" && |records| == head.body.count <= 1_000_000
            && IsHex(head.body.headHash, 64) && IsHex(head.signature, 128) && s.verifies(head.body, head.signature)
            && Linked(s, records, 0, EmptyHash())
            && head.body.headHash == (if records == [] then EmptyHash() else records[|records| - 1].recordHash)
            && (anchor.Some? ==>
                  && anchor.value.count <= |records|
                  && (anchor.value.count == |records| ==> anchor.value.headHash == head.body.headHash)
                  && (0 < anchor.value.count < |records| ==>
                        records[anchor.value.count - 1].recordHash == anchor.value.headHash))
  {
    if !HeadVerifies(s, head) {
      return false;
    }
    // The authenticated head bounds how much of an untrusted log is read.
    var chain := records[..Min(|records|, head.count + 1)];
    if |chain| != head.count {
      return false;
    }
    assert chain == records;
    var linked := VerifyLinks(s, chain, 0, EmptyHash());
    if !linked || EndHash(chain, EmptyHash()) != head.headHash {
      return false;
    }
    if anchor.Some? {
      var committed := anchor.value;
      if head.count < committed.count
         || (head.count == committed.count && head.headHash != committed.headHash) {
        return false;
      }
      if 0 < committed.count < head.count && chain[committed.count - 1].recordHash != committed.headHash {
        return false;
      }
    }
    return true;
  }

  method VerifyExtension<E>(s: Scheme<E>, records: seq<AuditRecord<E>>, head: AuditHead,
                            fromCount: int, fromHash: string) returns (ok: bool)
    ensures ok <==> VerifiedExtension(s, records, head, fromCount, fromHash)
    ensures ok <==>
            && head.body.version == "geniusnew-audit-head-v2" && head.body.count <= 1_000_000
            && IsHex(head.body.headHash, 64) && IsHex(head.signature, 128) && s.verifies(head.body, head.signature)
            && 0 <= fromCount && IsHex(fromHash, 64) && |records| == head.body.count - fromCount <= 8192
            && Linked(s, records, fromCount, fromHash)
            && head.body.headHash == (if records == [] then fromHash else records[|records| - 1].recordHash)
  {
    if !HeadVerifies(s, head) || !(0 <= fromCount <= MAX_COUNT) || !IsDigest(fromHash)
       || head.count < fromCount {
      return false;
    }
    var extension := head.count - fromCount;
    if extension > MAX_DELTA_RECORDS {
      return false;
    }
    var chain := records[..Min(|records|, extension + 1)];
    if |chain| != extension {
      return false;
    }
    assert chain == records;
    var linked := VerifyLinks(s, chain, fromCount, fromHash);
    return linked && EndHash(chain, fromHash) == head.headHash;
  }

  // ---------------------------------------------------------------- the anchor

  /** The two ways a commitment moves, as functions: `None` is a refusal. */
  function Commit<E>(s: Scheme<E>, a: Commitment, head: AuditHead, records: seq<AuditRecord<E>>): Option<Commitment> {
    if Verified(s, records, head) && Continues(a, records, head)
    then Some(Commitment(head.count, head.headHash))
    else None
  }

  /** The second critical section of a delta: `base` was read and proved against earlier. */
  function ApplyDelta<E>(s: Scheme<E>, a: Commitment, base: Commitment, head: AuditHead,
                         records: seq<AuditRecord<E>>): Option<Commitment> {
    if !VerifiedExtension(s, records, head, base.count, base.headHash) then None
    else if a == base then Some(Commitment(head.count, head.headHash))
    else if head.count == a.count && head.headHash == a.headHash then Some(a)
    else None
  }

  class AuditAnchor<!E> {
    const scheme: Scheme<E>
    var count: int
    var headHash: string

    function Committed(): Commitment
      reads this
    {
      Commitment(count, headHash)
    }

    constructor (scheme: Scheme<E>)
      ensures this.scheme == scheme && Committed() == NothingCommitted()
    {
      this.scheme := scheme;
      count, headHash := 0, EmptyHash();
    }

    /** An anchor that starts where a signed head says an earlier one stood. */
    method Resume(head: AuditHead) returns (ok: bool)
      modifies this
      ensures ok <==> HeadVerifies(scheme, head)
      ensures ok ==> count == head.body.count && headHash == head.body.headHash
      ensures Committed() == if ok then Commitment(head.count, head.headHash) else old(Committed())
    {
      ok := HeadVerifies(scheme, head);
      if ok {
        count, headHash := head.count, head.headHash;
      }
    }

    method CommitChain(head: AuditHead, records: seq<AuditRecord<E>>) returns (r: Option<Commitment>)
      modifies this
      ensures r == Commit(scheme, old(Committed()), head, records)
      ensures Committed() == if r.Some? then r.value else old(Committed())
      ensures r.Some? <==> Verified(scheme, records, head) && old(count) <= head.body.count
                           && (head.body.count == old(count) ==> head.body.headHash == old(headHash))
                           && (0 < old(count) < head.body.count ==> records[old(count) - 1].recordHash == old(headHash))
      ensures r.Some? ==> r.value == Commitment(head.body.count, head.body.headHash)
    {
      var ok := Verify(scheme, records, head, None);
      if !ok {
        return None;
      }
      if head.count < count || (head.count == count && head.headHash != headHash) {
        return None;
      }
      if 0 < count < head.count && records[count - 1].recordHash != headHash {
        return None;
      }
      count, headHash := head.count, head.headHash;
      return Some(Committed());
    }

    method CommitDelta(base: Commitment, head: AuditHead, records: seq<AuditRecord<E>>)
      returns (r: Option<Commitment>)
      modifies this
      ensures r == ApplyDelta(scheme, old(Committed()), base, head, records)
      ensures Committed() == if r.Some? then r.value else old(Committed())
      ensures r.Some? <==> VerifiedExtension(scheme, records, head, base.count, base.headHash)
                           && old(Committed()) in {base, Commitment(head.body.count, head.body.headHash)}
      ensures r.Some? ==> r.value == Commitment(head.body.count, head.body.headHash)
    {
      var ok := VerifyExtension(scheme, records, head, base.count, base.headHash);
      if !ok {
        return None;
      }
      if count == base.count && headHash == base.headHash {
        count, headHash := head.count, head.headHash;
        return Some(Committed());
      }
      if head.count == count && head.headHash == headHash {
        return Some(Committed());
      }
      return None;
    }
  }

  // ---------------------------------------------------------------- a commitment means a chain

  ghost predicate NotColliding<E>(s: Scheme<E>, r: AuditRecord<E>, q: AuditRecord<E>) {
    RecordHash(s, r.index, r.event, r.previousHash) == RecordHash(s, q.index, q.event, q.previousHash) ==>
      r.index == q.index && r.event == q.event && r.previousHash == q.previousHash
  }

  /** SHA-256 as the log needs it: among the records ever seen, no two collide. */
  ghost predicate CollisionFree<E>(s: Scheme<E>, seen: set<AuditRecord<E>>) {
    forall r, q :: r in seen && q in seen ==> NotColliding(s, r, q)
  }

  ghost predicate Within<E>(records: seq<AuditRecord<E>>, seen: set<AuditRecord<E>>) {
    forall i :: 0 <= i < |records| ==> records[i] in seen
  }

  /** `chain` is a log whose commitment is `a`. */
  ghost predicate Describes<E>(s: Scheme<E>, chain: seq<AuditRecord<E>>, a: Commitment) {
    && |chain| == a.count <= MAX_COUNT
    && Linked(s, chain, 0, EmptyHash())
    && EndHash(chain, EmptyHash()) == a.headHash
  }

  /** Backward induction on injective record hashes: equal record hashes, equal histories. */
  lemma {:induction false} HistoryDetermined<E>(s: Scheme<E>, seen: set<AuditRecord<E>>, left: seq<AuditRecord<E>>,
                                                right: seq<AuditRecord<E>>, n: nat)
    requires CollisionFree(s, seen) && Within(left, seen) && Within(right, seen)
    requires Linked(s, left, 0, EmptyHash()) && Linked(s, right, 0, EmptyHash())
    requires n <= |left| && n <= |right|
    requires n > 0 ==> left[n - 1].recordHash == right[n - 1].recordHash
    ensures left[..n] == right[..n]
  {
    if n > 0 {
      var l, r := left[n - 1], right[n - 1];
      assert FitsAt(s, left, 0, EmptyHash(), n - 1) && FitsAt(s, right, 0, EmptyHash(), n - 1);
      assert NotColliding(s, l, r);
      assert l == r;
      HistoryDetermined(s, seen, left, right, n - 1);
      assert left[..n] == left[..n - 1] + [l];
      assert right[..n] == right[..n - 1] + [r];
    }
  }

  /** A commitment describes at most one chain. */
  lemma ChainDetermined<E>(s: Scheme<E>, seen: set<AuditRecord<E>>, left: seq<AuditRecord<E>>, right: seq<AuditRecord<E>>,
                           a: Commitment)
    requires CollisionFree(s, seen) && Within(left, seen) && Within(right, seen)
    requires Describes(s, left, a) && Describes(s, right, a)
    ensures left == right
  {
    HistoryDetermined(s, seen, left, right, |left|);
    assert left[..|left|] == left && right[..|left|] == right;
  }

  /** Records that contain the committed chain are never refused for descent. */
  lemma CommitPrefix<E>(s: Scheme<E>, chain: seq<AuditRecord<E>>, a: Commitment, head: AuditHead, records: seq<AuditRecord<E>>)
    requires Describes(s, chain, a) && chain <= records
    ensures Commit(s, a, head, records) ==
            if Verified(s, records, head) then Some(Commitment(head.count, head.headHash)) else None
  {
    if |chain| == |records| {
      assert chain == records;
    } else if |chain| > 0 {
      assert records[|chain| - 1] == chain[|chain| - 1];
    }
  }

  /** A continuity commitment means "prefix of", not "shorter than": a full commit is accepted
      exactly when the records verify and contain the committed chain. */
  lemma CommitMeansPrefix<E>(s: Scheme<E>, seen: set<AuditRecord<E>>, chain: seq<AuditRecord<E>>, a: Commitment,
                             head: AuditHead, records: seq<AuditRecord<E>>)
    requires CollisionFree(s, seen) && Within(chain, seen) && Within(records, seen) && Describes(s, chain, a)
    ensures Commit(s, a, head, records).Some? <==> Verified(s, records, head) && chain <= records
    ensures Commit(s, a, head, records).Some? ==> Describes(s, records, Commit(s, a, head, records).value)
  {
    if Verified(s, records, head) {
      if Continues(a, records, head) {
        HistoryDetermined(s, seen, chain, records, |chain|);
        assert chain[..|chain|] == chain;
      }
      if chain <= records {
        CommitPrefix(s, chain, a, head, records);
      }
    }
  }

  /** The fast form refines the slow one: from a described commitment, a delta is accepted exactly
      when it is small enough and the full commit of chain plus delta is, with the same outcome. */
  lemma DeltaRefinesCommit<E>(s: Scheme<E>, chain: seq<AuditRecord<E>>, a: Commitment, head: AuditHead,
                              delta: seq<AuditRecord<E>>)
    requires Describes(s, chain, a)
    ensures ApplyDelta(s, a, a, head, delta) ==
            if |delta| <= MAX_DELTA_RECORDS then Commit(s, a, head, chain + delta) else None
  {
    CommitPrefix(s, chain, a, head, chain + delta);
    LinkedConcat(s, chain, delta, 0, EmptyHash());
    EndIsDigest(s, chain);
  }

  lemma EndIsDigest<E>(s: Scheme<E>, chain: seq<AuditRecord<E>>)
    requires Linked(s, chain, 0, EmptyHash())
    ensures IsDigest(EndHash(chain, EmptyHash()))
  {
    if chain != [] {
      assert FitsAt(s, chain, 0, EmptyHash(), |chain| - 1);
    }
  }

  /** Verified extensions compose through any intermediate signed head, and split there. */
  lemma ExtensionsComposeAndSplit<E>(s: Scheme<E>, first: seq<AuditRecord<E>>, second: seq<AuditRecord<E>>,
                                     middle: AuditHead, head: AuditHead, fromCount: int, fromHash: string)
    requires HeadVerifies(s, middle)
    requires middle.count == fromCount + |first| && middle.headHash == EndHash(first, fromHash)
    requires |first| + |second| <= MAX_DELTA_RECORDS
    ensures VerifiedExtension(s, first + second, head, fromCount, fromHash) <==>
            VerifiedExtension(s, first, middle, fromCount, fromHash)
            && VerifiedExtension(s, second, head, middle.count, middle.headHash)
  {
    LinkedConcat(s, first, second, fromCount, fromHash);
  }

  // ---------------------------------------------------------------- every run of an anchor

  /** What can happen to an anchor. A delta reads its base and is applied later, so other
      commits may come between; a restart resumes from the head the state file ends in. */
  datatype AnchorOp<E> =
    | FullCommit(head: AuditHead, records: seq<AuditRecord<E>>)
    | ReadBase(client: nat)
    | DeltaCommit(client: nat, head: AuditHead, records: seq<AuditRecord<E>>)
    | Restart

  datatype AnchorRun = AnchorRun(at: Commitment, persisted: Option<AuditHead>, bases: map<nat, Commitment>)

  function Moved(run: AnchorRun, to: Option<Commitment>, head: AuditHead): AnchorRun {
    if to.None? || to.value == run.at then run
    else run.(at := to.value, persisted := Some(head))
  }

  function AnchorStep<E>(s: Scheme<E>, run: AnchorRun, op: AnchorOp<E>): AnchorRun {
    match op
    case FullCommit(head, records) => Moved(run, Commit(s, run.at, head, records), head)
    case ReadBase(client) => run.(bases := run.bases[client := run.at])
    case DeltaCommit(client, head, records) =>
      if client !in run.bases then run
      else Moved(run, ApplyDelta(s, run.at, run.bases[client], head, records), head)
    case Restart =>
      if run.persisted.None? then AnchorRun(NothingCommitted(), None, map[])
      else if HeadVerifies(s, run.persisted.value)
      then AnchorRun(Commitment(run.persisted.value.count, run.persisted.value.headHash), run.persisted, map[])
      else run
  }

  function RunAnchor<E>(s: Scheme<E>, ops: seq<AnchorOp<E>>): AnchorRun {
    if ops == [] then AnchorRun(NothingCommitted(), None, map[])
    else AnchorStep(s, RunAnchor(s, ops[..|ops| - 1]), ops[|ops| - 1])
  }

  ghost predicate ResumesWhereItStood<E>(s: Scheme<E>, run: AnchorRun) {
    match run.persisted
    case None => run.at == NothingCommitted()
    case Some(head) => HeadVerifies(s, head) && run.at == Commitment(head.count, head.headHash)
  }

  /** Every record this request carries is among those seen. */
  ghost predicate Presents<E>(op: AnchorOp<E>, seen: set<AuditRecord<E>>) {
    match op
    case FullCommit(_, records) => Within(records, seen)
    case DeltaCommit(_, _, records) => Within(records, seen)
    case _ => true
  }

  lemma FullCommitExtends<E>(s: Scheme<E>, seen: set<AuditRecord<E>>, run: AnchorRun, head: AuditHead,
                             records: seq<AuditRecord<E>>, chain: seq<AuditRecord<E>>)
    returns (next: seq<AuditRecord<E>>)
    requires CollisionFree(s, seen) && Within(chain, seen) && Within(records, seen)
    requires Describes(s, chain, run.at) && ResumesWhereItStood(s, run)
    ensures Within(next, seen)
    ensures var after := Moved(run, Commit(s, run.at, head, records), head);
            Describes(s, next, after.at) && ResumesWhereItStood(s, after)
    ensures chain <= next
  {
    CommitMeansPrefix(s, seen, chain, run.at, head, records);
    next := if Commit(s, run.at, head, records).Some? then records else chain;
  }

  lemma DeltaCommitExtends<E>(s: Scheme<E>, seen: set<AuditRecord<E>>, run: AnchorRun, base: Commitment, head: AuditHead,
                                    records: seq<AuditRecord<E>>, chain: seq<AuditRecord<E>>)
    returns (next: seq<AuditRecord<E>>)
    requires CollisionFree(s, seen) && Within(chain, seen) && Within(records, seen)
    requires Describes(s, chain, run.at) && ResumesWhereItStood(s, run)
    ensures Within(next, seen)
    ensures var after := Moved(run, ApplyDelta(s, run.at, base, head, records), head);
            Describes(s, next, after.at) && ResumesWhereItStood(s, after)
    ensures chain <= next
  {
    var moved := ApplyDelta(s, run.at, base, head, records);
    if base == run.at && moved.Some? {
      DeltaRefinesCommit(s, chain, run.at, head, records);
      next := FullCommitExtends(s, seen, run, head, chain + records, chain);
    } else {
      next := chain;
    }
  }

  lemma StepExtends<E>(s: Scheme<E>, seen: set<AuditRecord<E>>, run: AnchorRun, op: AnchorOp<E>, chain: seq<AuditRecord<E>>)
    returns (next: seq<AuditRecord<E>>)
    requires CollisionFree(s, seen) && Within(chain, seen) && Presents(op, seen)
    requires Describes(s, chain, run.at) && ResumesWhereItStood(s, run)
    ensures Within(next, seen)
    ensures Describes(s, next, AnchorStep(s, run, op).at) && ResumesWhereItStood(s, AnchorStep(s, run, op))
    ensures chain <= next
  {
    next := chain;
    match op
    case FullCommit(head, records) =>
      next := FullCommitExtends(s, seen, run, head, records, chain);
    case DeltaCommit(client, head, records) =>
      if client in run.bases {
        next := DeltaCommitExtends(s, seen, run, run.bases[client], head, records, chain);
      }
    case ReadBase(_) =>
    case Restart =>
  }

  /** Every run leaves the anchor standing for some chain. */
  lemma {:induction false} RunDescribesAChain<E>(s: Scheme<E>, seen: set<AuditRecord<E>>, ops: seq<AnchorOp<E>>)
    returns (chain: seq<AuditRecord<E>>)
    requires CollisionFree(s, seen) && forall i :: 0 <= i < |ops| ==> Presents(ops[i], seen)
    ensures Within(chain, seen)
    ensures Describes(s, chain, RunAnchor(s, ops).at) && ResumesWhereItStood(s, RunAnchor(s, ops))
  {
    if ops == [] {
      chain := [];
    } else {
      var n := |ops| - 1;
      var before := RunDescribesAChain(s, seen, ops[..n]);
      chain := StepExtends(s, seen, RunAnchor(s, ops[..n]), ops[n], before);
    }
  }

  /** Over every run of full commits, delta commits interleaved between their base read and
      their apply, refusals and restarts, what was committed earlier is a prefix of what is
      committed later. */
  lemma {:induction false} CommittedChainsExtend<E>(s: Scheme<E>, seen: set<AuditRecord<E>>, ops: seq<AnchorOp<E>>, j: nat,
                                                    earlier: seq<AuditRecord<E>>, later: seq<AuditRecord<E>>)
    requires CollisionFree(s, seen) && (forall i :: 0 <= i < |ops| ==> Presents(ops[i], seen)) && j <= |ops|
    requires Within(earlier, seen) && Within(later, seen)
    requires Describes(s, earlier, RunAnchor(s, ops[..j]).at)
    requires Describes(s, later, RunAnchor(s, ops).at)
    ensures earlier <= later
    decreases |ops|
  {
    if j == |ops| {
      assert ops[..j] == ops;
      ChainDetermined(s, seen, earlier, later, RunAnchor(s, ops).at);
    } else {
      var n := |ops| - 1;
      var before := RunDescribesAChain(s, seen, ops[..n]);
      assert ops[..n][..j] == ops[..j];
      CommittedChainsExtend(s, seen, ops[..n], j, earlier, before);
      var next := StepExtends(s, seen, RunAnchor(s, ops[..n]), ops[n], before);
      ChainDetermined(s, seen, next, later, RunAnchor(s, ops).at);
    }
  }

  // ---------------------------------------------------------------- the log itself

  /** The records an append-only log holds after `events`. */
  function Records<E>(s: Scheme<E>, events: seq<E>): (records: seq<AuditRecord<E>>)
    ensures |records| == |events|
  {
    if events == [] then []
    else
      var before := Records(s, events[..|events| - 1]);
      before + [NextRecord(s, before, events[|events| - 1])]
  }

  function NextRecord<E>(s: Scheme<E>, records: seq<AuditRecord<E>>, event: E): AuditRecord<E> {
    var previous := EndHash(records, EmptyHash());
    AuditRecord(|records|, event, previous, RecordHash(s, |records|, event, previous))
  }

  lemma {:induction false} RecordsLinked<E(!new)>(s: Scheme<E>, events: seq<E>)
    requires HashesAreDigests(s)
    ensures Linked(s, Records(s, events), 0, EmptyHash())
  {
    if events != [] {
      var before := Records(s, events[..|events| - 1]);
      RecordsLinked(s, events[..|events| - 1]);
      EndIsDigest(s, before);
      LinkedSnoc(s, before, NextRecord(s, before, events[|events| - 1]), 0, EmptyHash());
    }
  }

  lemma {:induction false} RecordsOfPrefix<E>(s: Scheme<E>, events: seq<E>, n: nat)
    requires n <= |events|
    ensures Records(s, events[..n]) == Records(s, events)[..n]
  {
    if n == |events| {
      assert events[..n] == events;
    } else {
      RecordsOfPrefix(s, events[..|events| - 1], n);
      assert events[..|events| - 1][..n] == events[..n];
    }
  }

  /** The writer's key: it signs exactly what the scheme verifies. */
  ghost predicate SignsFor<E>(s: Scheme<E>, sign: HeadBody -> string) {
    forall b: HeadBody :: IsSignature(sign(b)) && s.verifies(b, sign(b))
  }

  function SignHead(sign: HeadBody -> string, count: int, headHash: string): AuditHead {
    var body := HeadBody(HEAD_VERSION, count, headHash);
    AuditHead(body, sign(body))
  }

  function HeadOf<E>(sign: HeadBody -> string, records: seq<AuditRecord<E>>): AuditHead {
    SignHead(sign, |records|, EndHash(records, EmptyHash()))
  }

  /** The commitment that stands for a log of `events`. */
  function CommitmentTo<E>(s: Scheme<E>, events: seq<E>): Commitment {
    Commitment(|events|, EndHash(Records(s, events), EmptyHash()))
  }

  lemma RecordsDescribed<E(!new)>(s: Scheme<E>, sign: HeadBody -> string, events: seq<E>)
    requires HashesAreDigests(s) && SignsFor(s, sign) && |events| <= MAX_COUNT
    ensures Describes(s, Records(s, events), CommitmentTo(s, events))
    ensures Verified(s, Records(s, events), HeadOf(sign, Records(s, events)))
  {
    RecordsLinked(s, events);
    EndIsDigest(s, Records(s, events));
  }

  /** A snapshot of a log that goes on from what is committed is always accepted, and a shorter one
      never is. */
  lemma SnapshotTaken<E(!new)>(s: Scheme<E>, sign: HeadBody -> string, committed: seq<E>, events: seq<E>)
    requires HashesAreDigests(s) && SignsFor(s, sign) && |committed| <= MAX_COUNT && |events| <= MAX_COUNT
    requires committed <= events || |events| < |committed|
    ensures Commit(s, CommitmentTo(s, committed), HeadOf(sign, Records(s, events)), Records(s, events)) ==
            if committed <= events then Some(CommitmentTo(s, events)) else None
  {
    RecordsDescribed(s, sign, committed);
    RecordsDescribed(s, sign, events);
    if committed <= events {
      PrefixOfRecords(s, committed, events);
      CommitPrefix(s, Records(s, committed), CommitmentTo(s, committed), HeadOf(sign, Records(s, events)), Records(s, events));
    }
  }

  /** A snapshot of another history never is, unless two of its records collide. */
  lemma SnapshotCommits<E(!new)>(s: Scheme<E>, seen: set<AuditRecord<E>>, sign: HeadBody -> string, committed: seq<E>,
                                 events: seq<E>)
    requires HashesAreDigests(s) && SignsFor(s, sign) && |committed| <= MAX_COUNT && |events| <= MAX_COUNT
    requires CollisionFree(s, seen) && Within(Records(s, committed), seen) && Within(Records(s, events), seen)
    ensures Commit(s, CommitmentTo(s, committed), HeadOf(sign, Records(s, events)), Records(s, events)) ==
            if committed <= events then Some(CommitmentTo(s, events)) else None
  {
    hide CollisionFree, Within, Describes, Verified, HashesAreDigests, SignsFor, Commit, Records;
    if committed <= events {
      SnapshotTaken(s, sign, committed, events);
    } else {
      var before, after := Records(s, committed), Records(s, events);
      RecordsDescribed(s, sign, committed);
      CommitMeansPrefix(s, seen, before, CommitmentTo(s, committed), HeadOf(sign, after), after);
      PrefixOfRecords(s, committed, events);
    }
  }

  lemma PrefixOfRecords<E>(s: Scheme<E>, left: seq<E>, right: seq<E>)
    ensures Records(s, left) <= Records(s, right) <==> left <= right
  {
    if left <= right {
      RecordsOfPrefix(s, right, |left|);
      assert right[..|left|] == left;
    }
    if Records(s, left) <= Records(s, right) {
      forall i | 0 <= i < |left|
        ensures left[i] == right[i]
      {
        EventAt(s, left, i);
        EventAt(s, right, i);
      }
    }
  }

  lemma {:induction false} EventAt<E>(s: Scheme<E>, events: seq<E>, i: nat)
    requires i < |events|
    ensures Records(s, events)[i].event == events[i]
  {
    if i < |events| - 1 {
      EventAt(s, events[..|events| - 1], i);
    }
  }

  /** The record an append adds. */
  lemma RecordsAppend<E>(s: Scheme<E>, events: seq<E>, event: E)
    ensures var records := Records(s, events);
            var previous := if records == [] then EmptyHash() else records[|records| - 1].recordHash;
            Records(s, events + [event]) ==
            records + [AuditRecord(|records|, event, previous, RecordHash(s, |records|, event, previous))]
  {
    assert (events + [event])[..|events + [event]| - 1] == events;
  }

  /** Append-only in memory: position, link and store as one operation. */
  class AuditChain<!E(!new)> {
    const scheme: Scheme<E>
    var records: seq<AuditRecord<E>>
    ghost var events: seq<E>

    ghost predicate Valid()
      reads this
    {
      records == Records(scheme, events)
    }

    constructor (scheme: Scheme<E>)
      ensures Valid() && events == [] && this.scheme == scheme
    {
      this.scheme := scheme;
      records := [];
      events := [];
    }

    method Append(event: E) returns (record: AuditRecord<E>)
      requires Valid()
      modifies this
      ensures Valid() && events == old(events) + [event]
      ensures records == old(records) + [record]
    {
      var index := |records|;
      var previousHash := if records == [] then EmptyHash() else records[|records| - 1].recordHash;
      record := AuditRecord(index, event, previousHash, RecordHash(scheme, index, event, previousHash));
      RecordsAppend(scheme, events, event);
      records := records + [record];
      events := events + [event];
    }

    /** Sign the exact chain as it stands; any anchor holding a prefix of it accepts. */
    method Snapshot(sign: HeadBody -> string) returns (head: AuditHead, copy: seq<AuditRecord<E>>)
      requires Valid()
      ensures copy == records && head == HeadOf(sign, records)
      ensures HashesAreDigests(scheme) && SignsFor(scheme, sign) && |records| <= MAX_COUNT ==>
              forall n: nat :: n <= |events| ==>
                Commit(scheme, CommitmentTo(scheme, events[..n]), head, copy) == Some(CommitmentTo(scheme, events))
    {
      copy := records;
      var headHash := if copy == [] then EmptyHash() else copy[|copy| - 1].recordHash;
      head := SignHead(sign, |copy|, headHash);
      if HashesAreDigests(scheme) && SignsFor(scheme, sign) && |records| <= MAX_COUNT {
        forall n: nat | n <= |events|
          ensures Commit(scheme, CommitmentTo(scheme, events[..n]), head, copy) == Some(CommitmentTo(scheme, events))
        {
          SnapshotTaken(scheme, sign, events[..n], events);
        }
      }
    }
  }
}
