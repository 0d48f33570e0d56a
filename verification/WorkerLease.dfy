/** The lease around a worker of the socket-activated service: host-wide, taken before the service is
    found idle, and kept until the worker's end is confirmed (geniusnew/worker_service.py:887-911,
    981-1016, 1066-1085, 1165-1254). Any number of Core processes share one host. */
module WorkerLease {
  import opened Prelude
  import opened WorkerRunner

  /** One open file description of the lease file. */
  type Lease = nat
  type Worker = nat
  type CoreId = nat

  /** How far a call of `_run_worker` has come under its lease; `Unconfirmed` is what `_pending` keeps. */
  datatype Phase =
    | Acquired
    | FoundIdle
    | Connected(worker: Worker, bound: bool)
    | Unconfirmed

  datatype Held = Held(core: CoreId, phase: Phase)

  /** `held` is every open lease and `lock` the one that has the advisory lock; `alive` is every worker
      that still shows in a unit, a cgroup, a runtime directory or a process. */
  datatype Host = Host(lock: Option<Lease>, held: map<Lease, Held>, alive: set<Worker>, started: seq<Worker>)

  const EMPTY_HOST := Host(None, map[], {}, [])

  /** One step of some call, of a worker, or of a whole Core process. */
  datatype HostOp =
    | Enter(core: CoreId, lease: Lease, preflight: bool)
    | AssertIdle(lease: Lease)
    | Connect(lease: Lease, worker: Worker, accepted: bool)
    | Bind(lease: Lease, authenticated: bool)
    | AwaitEnd(lease: Lease, inTime: bool)
    | Exit(worker: Worker)
    | Crash(core: CoreId)

  /** The runner of this core keeps a lease it could not confirm. */
  predicate Pending(h: Host, core: CoreId) { exists l :: l in h.held && h.held[l] == Held(core, Unconfirmed) }

  function Advance(h: Host, lease: Lease, phase: Phase): Host
    requires lease in h.held
  {
    h.(held := h.held[lease := Held(h.held[lease].core, phase)])
  }

  /** Closing a descriptor frees the lock it has. */
  function Closed(h: Host, leases: set<Lease>): Host {
    h.(held := h.held - leases, lock := if h.lock.Some? && h.lock.value in leases then None else h.lock)
  }

  predicate Connects(h: Host, op: HostOp) {
    op.Connect? && op.lease in h.held && h.held[op.lease].phase == FoundIdle && op.accepted && op.worker !in h.started
  }

  function Step(h: Host, op: HostOp): Host {
    match op
    case Enter(core, lease, preflight) =>
      if Pending(h, core) || !preflight || h.lock.Some? || lease in h.held then h
      else h.(lock := Some(lease), held := h.held[lease := Held(core, Acquired)])
    case AssertIdle(lease) =>
      if lease !in h.held || h.held[lease].phase != Acquired then h
      else Advance(h, lease, if h.alive == {} then FoundIdle else Unconfirmed)
    case Connect(lease, worker, accepted) =>
      if lease !in h.held || h.held[lease].phase != FoundIdle then h
      else if !Connects(h, op) then Advance(h, lease, Unconfirmed)
      else Advance(h, lease, Connected(worker, false)).(alive := h.alive + {worker}, started := h.started + [worker])
    case Bind(lease, authenticated) =>
      if lease !in h.held || !h.held[lease].phase.Connected? then h
      else
        var worker := h.held[lease].phase.worker;
        if authenticated && worker in h.alive then Advance(h, lease, Connected(worker, true)) else h
    case AwaitEnd(lease, inTime) =>
      if lease !in h.held || !h.held[lease].phase.Connected? then h
      else if inTime && h.held[lease].phase.bound && h.alive == {} then Closed(h, {lease})
      else Advance(h, lease, Unconfirmed)
    case Exit(worker) => h.(alive := h.alive - {worker})
    case Crash(core) => Closed(h, set l | l in h.held && h.held[l].core == core)
  }

  function RunHost(h: Host, ops: seq<HostOp>): Host {
    if ops == [] then h else Step(RunHost(h, ops[..|ops| - 1]), ops[|ops| - 1])
  }

  // ---------------------------------------------------------------- what every step keeps

  /** An open lease is the one with the lock; what was found idle stays idle until its call connects;
      a call that has connected waits for the only worker there can be. */
  ghost predicate Sound(h: Host) {
    && h.held.Keys == (if h.lock.Some? then {h.lock.value} else {})
    && (forall w :: w in h.alive ==> h.started != [] && w == h.started[|h.started| - 1])
    && (forall l :: l in h.held ==>
          && (h.held[l].phase == FoundIdle ==> h.alive == {})
          && (h.held[l].phase.Connected? ==> h.started != [] && h.held[l].phase.worker == h.started[|h.started| - 1]))
  }

  lemma StepKeepsSound(h: Host, op: HostOp)
    requires Sound(h)
    ensures Sound(Step(h, op))
  {
  }

  lemma {:induction false} RunIsSound(ops: seq<HostOp>)
    ensures Sound(RunHost(EMPTY_HOST, ops))
  {
    if ops != [] {
      RunIsSound(ops[..|ops| - 1]);
      StepKeepsSound(RunHost(EMPTY_HOST, ops[..|ops| - 1]), ops[|ops| - 1]);
    }
  }

  // ---------------------------------------------------------------- over every run

  /** However Core processes, their calls, crashes and workers interleave, no two workers are ever alive
      together, and no two leases are ever open together. */
  lemma NeverTwoWorkers(ops: seq<HostOp>, v: Worker, w: Worker, k: Lease, l: Lease)
    ensures var h := RunHost(EMPTY_HOST, ops);
            && (v in h.alive && w in h.alive ==> v == w)
            && (k in h.held && l in h.held ==> k == l && h.lock == Some(k))
  {
    RunIsSound(ops);
  }

  /** A worker is started only when every earlier one is gone without trace. */
  lemma StartsOnlyWhenIdle(ops: seq<HostOp>, op: HostOp)
    ensures var h, next := RunHost(EMPTY_HOST, ops), RunHost(EMPTY_HOST, ops + [op]);
            && h.started <= next.started
            && (next.started != h.started ==> h.alive == {} && Connects(h, op) && next.started == h.started + [op.worker])
  {
    RunIsSound(ops);
    assert (ops + [op])[..|ops|] == ops;
  }

  /** Once a runner keeps a lease it could not confirm, no Core starts another worker before that
      runner's process ends; and the lock stays with it. */
  lemma {:induction false} UnconfirmedBlocks(ops: seq<HostOp>, more: seq<HostOp>, core: CoreId)
    requires Pending(RunHost(EMPTY_HOST, ops), core) && Crash(core) !in more
    ensures var h, next := RunHost(EMPTY_HOST, ops), RunHost(EMPTY_HOST, ops + more);
            next.started == h.started && next.lock == h.lock && Pending(next, core)
  {
    if more == [] {
      assert ops + more == ops;
    } else {
      var n := |more| - 1;
      UnconfirmedBlocks(ops, more[..n], core);
      assert (ops + more)[..|ops + more| - 1] == ops + more[..n];
      assert more[n] in more;
      RunIsSound(ops + more[..n]);
      BlockedStep(RunHost(EMPTY_HOST, ops + more[..n]), more[n], core);
    }
  }

  lemma BlockedStep(h: Host, op: HostOp, core: CoreId)
    requires Sound(h) && Pending(h, core) && op != Crash(core)
    ensures Step(h, op).started == h.started && Step(h, op).lock == h.lock && Pending(Step(h, op), core)
  {
    var l :| l in h.held && h.held[l] == Held(core, Unconfirmed);
    assert h.held.Keys == {l};
    var next := Step(h, op);
    assert l in next.held && next.held[l] == Held(core, Unconfirmed);
  }

  /** A lease is given up by its call exactly when the worker it authenticated has ended in time and
      nothing is left of any worker; every other end keeps it. */
  lemma ReleasedExactly(ops: seq<HostOp>, lease: Lease, inTime: bool)
    requires lease in RunHost(EMPTY_HOST, ops).held
    ensures var h, next := RunHost(EMPTY_HOST, ops), RunHost(EMPTY_HOST, ops + [AwaitEnd(lease, inTime)]);
            && (lease !in next.held <==> inTime && h.held[lease].phase.Connected? && h.held[lease].phase.bound && h.alive == {})
            && (next.lock == None <==> lease !in next.held)
  {
    RunIsSound(ops);
    var op := AwaitEnd(lease, inTime);
    assert (ops + [op])[..|ops|] == ops;
  }

  // ---------------------------------------------------------------- one call, as it runs

  /** What a call meets under its lease: whether it connects, whether the sender was authenticated and
      bound to its invocation, the result it read if none of that failed, and whether the
      worker's end was confirmed in time. */
  datatype Exchange = Exchange(connects: bool, binds: bool, result: Option<Work>, ends: bool)

  class ServiceWorkerRunner {
    const core: CoreId
    /** The operating system as this process finds it. */
    var host: Host
    var pending: seq<Lease>

    ghost predicate Valid()
      reads this
    {
      && Sound(host)
      && (forall l :: l in pending <==> l in host.held && host.held[l] == Held(core, Unconfirmed))
    }

    constructor (core: CoreId, host: Host)
      requires Sound(host) && forall l :: l in host.held ==> host.held[l].core != core
      ensures Valid() && this.core == core && this.host == host && pending == []
    {
      this.core, this.host := core, host;
      pending := [];
    }

    /** `_run_worker`: refused outright while an earlier call is unconfirmed; whatever else goes wrong once
        the lease is held, the lease is kept unless the worker's end was confirmed. */
    method RunWorker(lease: Lease, worker: Worker, preflight: bool, x: Exchange) returns (work: Work, ghost ops: seq<HostOp>)
      requires Valid() && lease !in host.held && worker !in host.started
      modifies this
      ensures Valid() && host == RunHost(old(host), ops) && Crash(core) !in ops
      ensures var entered := old(pending) == [] && preflight && old(host).lock == None;
              var connected := entered && old(host).alive == {} && x.connects;
              var confirmed := connected && x.binds && x.ends;
              && pending == old(pending) + (if entered && !confirmed then [lease] else [])
              && host.lock == (if entered && !confirmed then Some(lease) else old(host).lock)
              && host.started == old(host).started + (if connected then [worker] else [])
              && work == (if confirmed && x.result.Some? then x.result.value else BoundaryLost)
    {
      hide RunHost, Step, Sound;
      ops, work := [], BoundaryLost;
      RunOfNone(host);
      if pending != [] || !preflight || host.lock.Some? {
        return;
      }
      ghost var before := host;
      NothingHeld(core, pending, host);
      EnterIs(host, core, lease);
      ops := Act(Enter(core, lease, preflight), before, ops);
      AssertIdleIs(host, core, lease);
      ops := Act(AssertIdle(lease), before, ops);
      if host.held[lease].phase == FoundIdle {
        ops := WorkUnder(lease, worker, x, before, ops);
        if lease !in host.held && x.result.Some? {
          work := x.result.value;
        }
      }
      if lease in host.held {
        pending := pending + [lease];
      }
    }

    /** The part of a call that has found the service idle. */
    method WorkUnder(lease: Lease, worker: Worker, x: Exchange, ghost from: Host, ghost ops: seq<HostOp>)
      returns (ghost more: seq<HostOp>)
      requires host == RunHost(from, ops) && Sound(host) && Crash(core) !in ops
      requires host.held == map[lease := Held(core, FoundIdle)] && host.lock == Some(lease)
      requires host.alive == {} && worker !in host.started
      modifies this`host
      ensures host == RunHost(from, more) && Sound(host) && Crash(core) !in more
      ensures host.held == if x.connects && x.binds && x.ends then map[] else map[lease := Held(core, Unconfirmed)]
      ensures host.lock == if x.connects && x.binds && x.ends then None else Some(lease)
      ensures host.started == old(host).started + (if x.connects then [worker] else [])
    {
      hide RunHost, Step, Sound;
      ConnectIs(host, core, lease, worker, x.connects);
      more := Act(Connect(lease, worker, x.connects), from, ops);
      if !x.connects {
        return;
      }
      BindIs(host, core, lease, worker, x.binds);
      more := Act(Bind(lease, x.binds), from, more);
      if x.ends {
        ExitIs(host, worker);
        more := Act(Exit(worker), from, more);
      }
      AwaitEndIs(host, core, lease, worker, x.binds, x.ends);
      more := Act(AwaitEnd(lease, x.ends), from, more);
    }

    method Act(op: HostOp, ghost from: Host, ghost ops: seq<HostOp>) returns (ghost more: seq<HostOp>)
      requires host == RunHost(from, ops) && Sound(host)
      modifies this`host
      ensures host == Step(old(host), op) && Sound(host)
      ensures more == ops + [op] && host == RunHost(from, more)
    {
      StepKeepsSound(host, op);
      more := ops + [op];
      assert more[..|more| - 1] == ops;
      host := Step(host, op);
    }
  }

  // The steps of a call that meets no other call.

  lemma RunOfNone(h: Host)
    ensures RunHost(h, []) == h
  {
  }

  lemma NothingHeld(core: CoreId, pending: seq<Lease>, h: Host)
    requires Sound(h) && h.lock == None
    ensures h.held == map[]
  {
    assert h.held.Keys == {};
  }

  lemma EnterIs(h: Host, core: CoreId, lease: Lease)
    requires h.held == map[] && h.lock == None
    ensures Step(h, Enter(core, lease, true)) == Host(Some(lease), map[lease := Held(core, Acquired)], h.alive, h.started)
  {
  }

  lemma AssertIdleIs(h: Host, core: CoreId, lease: Lease)
    requires h.held == map[lease := Held(core, Acquired)]
    ensures Step(h, AssertIdle(lease))
            == h.(held := map[lease := Held(core, if h.alive == {} then FoundIdle else Unconfirmed)])
  {
  }

  lemma ConnectIs(h: Host, core: CoreId, lease: Lease, worker: Worker, accepted: bool)
    requires h.held == map[lease := Held(core, FoundIdle)] && worker !in h.started
    ensures Step(h, Connect(lease, worker, accepted)) ==
            if accepted
            then Host(h.lock, map[lease := Held(core, Connected(worker, false))], h.alive + {worker}, h.started + [worker])
            else h.(held := map[lease := Held(core, Unconfirmed)])
  {
  }

  lemma BindIs(h: Host, core: CoreId, lease: Lease, worker: Worker, authenticated: bool)
    requires h.held == map[lease := Held(core, Connected(worker, false))] && worker in h.alive
    ensures Step(h, Bind(lease, authenticated)) == h.(held := map[lease := Held(core, Connected(worker, authenticated))])
  {
  }

  lemma ExitIs(h: Host, worker: Worker)
    ensures Step(h, Exit(worker)) == h.(alive := h.alive - {worker})
  {
  }

  lemma AwaitEndIs(h: Host, core: CoreId, lease: Lease, worker: Worker, bound: bool, ends: bool)
    requires h.held == map[lease := Held(core, Connected(worker, bound))] && h.lock == Some(lease)
    requires ends ==> h.alive == {}
    ensures Step(h, AwaitEnd(lease, ends)) ==
            if bound && ends then Host(None, map[], h.alive, h.started)
            else h.(held := map[lease := Held(core, Unconfirmed)])
  {
  }
}
