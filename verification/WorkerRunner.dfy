/** A worker run inside its contract (geniusnew/workers.py:399-492): what a runner signs for an admitted
    handoff, whatever the work did, and when it signs nothing at all. */
module WorkerRunner {
  import opened Prelude
  import opened Json
  import opened WireContract
  import opened Handoffs
  import opened Contracts
  import opened Results
  import opened ResultWires

  /** How the work ended: an output, `None` where it is not one text, or one of the failures. */
  datatype Work =
    | Done(output: Option<Text>)
    | Broken
    | OutOfResources
    | BrokeIsolation
    | BoundaryLost

  /** A run as the runner sees it: the work, the time it took, and the handoff's payload text afterwards. */
  datatype Run = Run(work: Work, elapsed: real, textAfter: Text)

  /** `handoff_digest` raises on a payload that no longer has its signed digest. */
  predicate Intact(h: Handoff, run: Run) { Print(PayloadValue(run.textAfter)) == Print(PayloadValue(h.text)) }

  method Execute(c: Crypto, k: WorkerKey, tool: Text, h: Handoff, admittedAt: int, now: int, run: Run)
    returns (wire: Option<Text>)
    ensures wire == Executed(c, k, tool, h, admittedAt, now, run)
  {
    if now < admittedAt || now >= h.expiresAt {
      return None;
    }
    if tool !in h.tools {
      return ProduceWire(c, k, h, Failed, ToolNotGranted, now);
    }
    var failure: Option<Reason> := None;
    match run.work {
      case BoundaryLost => return None;
      case BrokeIsolation => failure := Some(IsolationViolated);
      case OutOfResources => failure := Some(ResourceExhausted);
      case Broken => failure := Some(WorkerFailed);
      case Done(_) =>
    }
    if now as real + run.elapsed >= h.expiresAt as real {
      return None;
    }
    // Every signature from here on takes the digest of the handoff, and that refuses a changed payload.
    if !Intact(h, run) {
      return None;
    }
    if failure.Some? {
      return ProduceWire(c, k, h, Failed, failure.value, now);
    }
    if run.work.output.Some? {
      wire := ProduceWire(c, k, h, Succeeded(run.work.output.value), WorkCompleted, now);
      if wire.Some? {
        return;
      }
    }
    wire := ProduceWire(c, k, h, Failed, OutputRejected, now);
  }

  /** The work may be answered at all: admitted, in time to the end, and its payload as signed. */
  predicate Answerable(h: Handoff, admittedAt: int, now: int, run: Run) {
    && admittedAt <= now && now as real + run.elapsed < h.expiresAt as real
    && run.work != BoundaryLost && Intact(h, run)
  }

  /** What a run of the granted tool comes to. */
  function Verdict(c: Crypto, k: WorkerKey, h: Handoff, now: int, work: Work): (Status, Reason)
    requires work != BoundaryLost
  {
    match work
    case BrokeIsolation => (Failed, IsolationViolated)
    case OutOfResources => (Failed, ResourceExhausted)
    case Broken => (Failed, WorkerFailed)
    case Done(output) =>
      if output.Some? && ProduceWire(c, k, h, Succeeded(output.value), WorkCompleted, now).Some?
      then (Succeeded(output.value), WorkCompleted) else (Failed, OutputRejected)
  }

  function Executed(c: Crypto, k: WorkerKey, tool: Text, h: Handoff, admittedAt: int, now: int, run: Run): Option<Text> {
    if now < admittedAt || now >= h.expiresAt then None
    else if tool !in h.tools then ProduceWire(c, k, h, Failed, ToolNotGranted, now)
    else if !Answerable(h, admittedAt, now, run) then None
    else ProduceWire(c, k, h, Verdict(c, k, h, now, run.work).0, Verdict(c, k, h, now, run.work).1, now)
  }

  // ---------------------------------------------------------------- what is signed can be taken

  lemma AnswerIsProduced(c: Crypto, k: WorkerKey, tool: Text, h: Handoff, admittedAt: int, now: int, run: Run)
    returns (status: Status, reason: Reason)
    requires Executed(c, k, tool, h, admittedAt, now, run).Some?
    ensures ProduceWire(c, k, h, status, reason, now) == Executed(c, k, tool, h, admittedAt, now, run)
    ensures tool !in h.tools <==> reason == ToolNotGranted
    ensures tool !in h.tools ==> status == Failed
    ensures tool in h.tools ==> now as real + run.elapsed < h.expiresAt as real && Intact(h, run)
    ensures status.Succeeded? ==> tool in h.tools && run.work == Done(Some(status.output)) && reason == WorkCompleted
    ensures reason == WorkCompleted ==> status.Succeeded?
    ensures reason == OutputRejected ==> run.work.Done?
    ensures tool in h.tools ==> (reason == WorkerFailed <==> run.work == Broken)
    ensures tool in h.tools ==> (reason == ResourceExhausted <==> run.work == OutOfResources)
    ensures tool in h.tools ==> (reason == IsolationViolated <==> run.work == BrokeIsolation)
    ensures reason != PayloadMutated && reason != HandoffExpired
  {
    hide ProduceWire, Intact;
    if tool in h.tools {
      status, reason := Verdict(c, k, h, now, run.work).0, Verdict(c, k, h, now, run.work).1;
    } else {
      status, reason := Failed, ToolNotGranted;
    }
  }

  /** Whatever a runner signs is taken from the dispatch clock until the handoff expires, as one result whose
      status and reason say what the work did. Of the eight permitted reasons two are never given:
      a changed payload or a run past the deadline leaves no answer at all. */
  lemma SignedAnswerIsTaken(c: Crypto, k: WorkerKey, tool: Text, h: Handoff, admittedAt: int, now: int, run: Run, t: int,
                            wire: seq<Byte>) returns (r: Result)
    requires Contracts.Ideal(c) && WorkerIdeal(k) && h.jobId != [] && h.workerAgentId != []
    requires Executed(c, k, tool, h, admittedAt, now, run) == Some(wire)
    ensures Accepted(c, k, wire, h, t) == if now <= t < h.expiresAt && PairFree(h.jobId) && PairFree(h.workerAgentId) then Some(r) else None
    ensures r.producedAt == now && admittedAt <= now
    ensures r.reason == ToolNotGranted <==> tool !in h.tools
    ensures tool in h.tools ==> now as real + run.elapsed < h.expiresAt as real && Intact(h, run)
    ensures r.status.Succeeded? <==> r.reason == WorkCompleted
    ensures r.status.Succeeded? ==> run.work.Done? && run.work.output.Some? && r.status.output == Join(run.work.output.value)
    ensures r.reason !in {PayloadMutated, HandoffExpired}
  {
    hide ProduceWire, Accepted, Intact, PairFree, Executed, Contracts.Ideal, WorkerIdeal;
    var status, reason := AnswerIsProduced(c, k, tool, h, admittedAt, now, run);
    SignedWireTakenInTime(c, k, h, status, reason, now, t, wire);
    ProducedIs(c, k, h, status, reason, now);
    AdmittedFirst(c, k, tool, h, admittedAt, now, run);
    r := WithJoinedOutput(Produce(h, status, reason, now).value);
  }

  lemma ProducedIs(c: Crypto, k: WorkerKey, h: Handoff, status: Status, reason: Reason, now: int)
    requires ProduceWire(c, k, h, status, reason, now).Some?
    ensures Produce(h, status, reason, now) == Some(Result(h.jobId, h.workerAgentId, Sha256(h), status, reason, now))
  {
    hide ResultWire, Decode;
  }

  lemma AdmittedFirst(c: Crypto, k: WorkerKey, tool: Text, h: Handoff, admittedAt: int, now: int, run: Run)
    requires Executed(c, k, tool, h, admittedAt, now, run).Some?
    ensures admittedAt <= now
  {
    hide ProduceWire;
  }

  /** Where failures can be signed at all, the runner answers exactly the runs that were admitted and,
      if the tool was granted, ended before the deadline with their boundary and payload whole. */
  lemma AnsweredExactly(c: Crypto, k: WorkerKey, tool: Text, h: Handoff, admittedAt: int, now: int, run: Run)
    requires FailuresSign(c, k, h, now)
    ensures Executed(c, k, tool, h, admittedAt, now, run).Some? <==>
            && admittedAt <= now
            && (tool in h.tools ==>
                  && now as real + run.elapsed < h.expiresAt as real && run.work != BoundaryLost
                  && Print(PayloadValue(run.textAfter)) == Print(PayloadValue(h.text)))
  {
    hide ProduceWire, Print, PayloadValue;
    ProducedInTime(c, k, h, now);
  }

  /** No failure is too late or its wire too large to be signed. */
  ghost predicate FailuresSign(c: Crypto, k: WorkerKey, h: Handoff, now: int) {
    forall reason :: ProduceWire(c, k, h, Failed, reason, now).Some?
  }

  lemma ProducedInTime(c: Crypto, k: WorkerKey, h: Handoff, now: int)
    requires ProduceWire(c, k, h, Failed, WorkerFailed, now).Some?
    ensures now < h.expiresAt
  {
    hide ResultWire, Decode;
  }
}
