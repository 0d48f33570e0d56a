/** The sender of a worker's response, bound to every fragment of it, and the descriptors that
    arrive with them (geniusnew/worker_service.py:143-245). */
module FrameIdentity {
  import opened Prelude

  /** SO_PEERCRED-like credentials; `None` where the record has the wrong size. */
  datatype Credentials = Credentials(pid: int, uid: int, gid: int)

  /** One ancillary record of a fragment, its descriptors as the kernel installed them. */
  datatype Control =
    | Rights(fds: seq<int>, ragged: bool)
    | Creds(creds: Option<Credentials>)
    | Pidfd(fd: Option<int>)
    | OtherControl

  /** What one recvmsg delivers. No data is end of stream. */
  datatype Fragment = Fragment(data: seq<bv8>, controls: seq<Control>, flagged: bool)

  /** What the kernel says of a pidfd; `None` where it cannot be inspected. */
  datatype Kernel = Kernel(pidOf: int -> Option<int>, exited: int -> Option<bool>)

  datatype Peer = Peer(uid: int, gid: int)

  /** `pid` once a sender is bound, `pidfd` while its descriptor is retained. */
  datatype Identity = Identity(pid: Option<int>, pidfd: Option<int>)

  const UNBOUND := Identity(None, None)

  // ---------------------------------------------------------------- what arrives

  function Live(fd: int): seq<int> { if fd >= 0 then [fd] else [] }

  function LiveAll(fds: seq<int>): seq<int> {
    if fds == [] then [] else LiveAll(fds[..|fds| - 1]) + Live(fds[|fds| - 1])
  }

  /** The descriptors one record leaves in this process. */
  function Installed(c: Control): seq<int> {
    match c
    case Rights(fds, _) => LiveAll(fds)
    case Pidfd(fd) => if fd.Some? then Live(fd.value) else []
    case _ => []
  }

  function Owned(controls: seq<Control>): seq<int> {
    if controls == [] then [] else Owned(controls[..|controls| - 1]) + Installed(controls[|controls| - 1])
  }

  function CredsOf(controls: seq<Control>): seq<Option<Credentials>> {
    if controls == [] then []
    else
      var last := controls[|controls| - 1];
      CredsOf(controls[..|controls| - 1]) + if last.Creds? then [last.creds] else []
  }

  function PidfdsOf(controls: seq<Control>): seq<Option<int>> {
    if controls == [] then []
    else
      var last := controls[|controls| - 1];
      PidfdsOf(controls[..|controls| - 1]) + if last.Pidfd? then [last.fd] else []
  }

  predicate Unexpected(controls: seq<Control>) {
    exists i :: 0 <= i < |controls| && (controls[i].Rights? || controls[i].OtherControl?)
  }

  // ---------------------------------------------------------------- the verdict

  /** Who a data fragment says sent it, if it says so acceptably. */
  function SenderOf(p: Peer, id: Identity, f: Fragment): Option<int> {
    var creds := CredsOf(f.controls);
    if f.flagged || Unexpected(f.controls) || |creds| != 1 || creds[0].None? then None
    else
      var c := creds[0].value;
      if c.pid <= 0 || c.uid != p.uid || c.gid != p.gid || (id.pid.Some? && c.pid != id.pid.value) then None else Some(c.pid)
  }

  predicate EofOk(p: Peer, id: Identity, f: Fragment) {
    var creds := CredsOf(f.controls);
    && id.pid.Some? && !f.flagged && !Unexpected(f.controls) && PidfdsOf(f.controls) == []
    && (creds == []
        || (|creds| == 1 && creds[0] in {Some(Credentials(0, 0, 0)), Some(Credentials(id.pid.value, p.uid, p.gid))}))
  }

  /** `accept`: the identity afterwards, or a refusal. */
  function Judge(p: Peer, k: Kernel, id: Identity, f: Fragment): Option<Identity> {
    if f.data == [] then (if EofOk(p, id, f) then Some(id) else None)
    else match SenderOf(p, id, f)
    case None => None
    case Some(pid) =>
      var pidfds := PidfdsOf(f.controls);
      if |pidfds| != 1 || pidfds[0].None? then None
      else
        var fd := pidfds[0].value;
        if id.pidfd.None? then
          if fd >= 0 && k.pidOf(fd) == Some(pid) && k.exited(fd) == Some(false)
          then Some(Identity(Some(pid), Some(fd))) else None
        else if fd < 0 then (if fd >= -4095 && k.exited(id.pidfd.value) == Some(true) then Some(id) else None)
        else if id.pid.Some? && k.pidOf(fd) == Some(id.pid.value) then Some(id) else None
  }

  function Retained(id: Identity): multiset<int> { if id.pidfd.Some? then multiset{id.pidfd.value} else multiset{} }

  /** A retained descriptor arrived in this fragment, in its one pidfd record. */
  lemma {:induction false} PidfdIsOwned(controls: seq<Control>, fd: int)
    requires Some(fd) in PidfdsOf(controls) && fd >= 0
    ensures fd in Owned(controls)
  {
    var last := controls[|controls| - 1];
    if last != Pidfd(Some(fd)) {
      PidfdIsOwned(controls[..|controls| - 1], fd);
    }
  }

  // ---------------------------------------------------------------- the verdict, record by record

  /** Exactly these two ancillary records, in either order. */
  predicate Carries(controls: seq<Control>, c: Credentials, fd: int) {
    controls == [Creds(Some(c)), Pidfd(Some(fd))] || controls == [Pidfd(Some(fd)), Creds(Some(c))]
  }

  lemma {:induction false} RecordsCounted(controls: seq<Control>)
    requires !Unexpected(controls)
    ensures |controls| == |CredsOf(controls)| + |PidfdsOf(controls)|
  {
    if controls != [] {
      var n := |controls| - 1;
      forall i | 0 <= i < n
        ensures !controls[..n][i].Rights? && !controls[..n][i].OtherControl?
      {
        assert controls[..n][i] == controls[i];
      }
      RecordsCounted(controls[..n]);
      assert !controls[n].Rights? && !controls[n].OtherControl?;
    }
  }

  lemma OfOne(c: Control)
    ensures CredsOf([c]) == (if c.Creds? then [c.creds] else []) && PidfdsOf([c]) == (if c.Pidfd? then [c.fd] else [])
    ensures Unexpected([c]) <==> c.Rights? || c.OtherControl?
  {
    assert [c][..0] == [] && [c][0] == c;
  }

  lemma OfNone()
    ensures CredsOf([]) == [] && PidfdsOf([]) == [] && !Unexpected([])
  {
  }

  lemma OfTwo(a: Control, b: Control)
    ensures CredsOf([a, b]) == (if a.Creds? then [a.creds] else []) + (if b.Creds? then [b.creds] else [])
    ensures PidfdsOf([a, b]) == (if a.Pidfd? then [a.fd] else []) + (if b.Pidfd? then [b.fd] else [])
    ensures Unexpected([a, b]) <==> a.Rights? || a.OtherControl? || b.Rights? || b.OtherControl?
  {
    OfOne(a);
    assert [a, b][..1] == [a] && [a, b][0] == a && [a, b][1] == b;
  }

  lemma TwoRecords(f: Fragment, c: Credentials, fd: int)
    ensures Carries(f.controls, c, fd) <==>
            !Unexpected(f.controls) && CredsOf(f.controls) == [Some(c)] && PidfdsOf(f.controls) == [Some(fd)]
  {
    hide CredsOf, PidfdsOf, Unexpected;
    if !Unexpected(f.controls) {
      RecordsCounted(f.controls);
    }
    if |f.controls| == 2 {
      var a, b := f.controls[0], f.controls[1];
      assert f.controls == [a, b];
      OfTwo(a, b);
      if CredsOf(f.controls) == [Some(c)] && PidfdsOf(f.controls) == [Some(fd)] {
        assert CredsOf(f.controls)[0] == Some(c) && PidfdsOf(f.controls)[0] == Some(fd);
        assert (a.Creds? && b.Pidfd?) || (a.Pidfd? && b.Creds?);
      }
    }
  }

  lemma AtMostOneRecord(f: Fragment, creds: Option<Credentials>)
    ensures f.controls == [Creds(creds)] <==>
            !Unexpected(f.controls) && CredsOf(f.controls) == [creds] && PidfdsOf(f.controls) == []
    ensures f.controls == [] <==> !Unexpected(f.controls) && CredsOf(f.controls) == [] && PidfdsOf(f.controls) == []
  {
    hide CredsOf, PidfdsOf, Unexpected;
    OfNone();
    if !Unexpected(f.controls) {
      RecordsCounted(f.controls);
    }
    if |f.controls| == 1 {
      assert f.controls == [f.controls[0]];
      OfOne(f.controls[0]);
    }
  }

  /** What a data fragment must bring: the credentials of one process of the fixed user and group, the bound
      one if there is one, and one pidfd record. The first pidfd is live and names that process; a
      later one names it too, or is the sentinel of a sender that has exited. */
  predicate Authentic(p: Peer, k: Kernel, id: Identity, f: Fragment, pid: int, fd: int) {
    && Carries(f.controls, Credentials(pid, p.uid, p.gid), fd) && !f.flagged
    && 0 < pid && (id.pid == None || id.pid == Some(pid))
    && if id.pidfd == None then 0 <= fd && k.pidOf(fd) == Some(pid) && k.exited(fd) == Some(false)
       else if 0 <= fd then k.pidOf(fd) == Some(pid)
       else -4095 <= fd && k.exited(id.pidfd.value) == Some(true)
  }

  /** Data is accepted exactly when it is authentic, and then it binds the sender if none was bound. */
  lemma DataJudgedExactly(p: Peer, k: Kernel, id: Identity, f: Fragment)
    requires f.data != [] && (id.pidfd.Some? ==> id.pid.Some?)
    ensures Judge(p, k, id, f).Some? <==> exists pid, fd :: Authentic(p, k, id, f, pid, fd)
    ensures forall pid, fd :: Authentic(p, k, id, f, pid, fd) ==>
              Judge(p, k, id, f) == Some(if id.pidfd == None then Identity(Some(pid), Some(fd)) else id)
  {
    hide CredsOf, PidfdsOf, Unexpected, Carries, EofOk;
    var creds, pidfds := CredsOf(f.controls), PidfdsOf(f.controls);
    if |creds| == 1 && creds[0].Some? && |pidfds| == 1 && pidfds[0].Some? {
      assert creds == [Some(creds[0].value)] && pidfds == [Some(pidfds[0].value)];
      TwoRecords(f, creds[0].value, pidfds[0].value);
      assert Judge(p, k, id, f).Some? ==> Authentic(p, k, id, f, creds[0].value.pid, pidfds[0].value);
    }
    forall pid, fd | Authentic(p, k, id, f, pid, fd)
      ensures Judge(p, k, id, f) == Some(if id.pidfd == None then Identity(Some(pid), Some(fd)) else id)
    {
      TwoRecords(f, Credentials(pid, p.uid, p.gid), fd);
    }
  }

  /** The end of the stream is accepted exactly from a bound sender, without records or with the zero
      credentials or the sender's own. */
  lemma EndJudgedExactly(p: Peer, k: Kernel, id: Identity, f: Fragment)
    requires f.data == []
    ensures Judge(p, k, id, f) ==
            if id.pid.Some? && !f.flagged
               && (f.controls == [] || f.controls == [Creds(Some(Credentials(0, 0, 0)))]
                   || f.controls == [Creds(Some(Credentials(id.pid.value, p.uid, p.gid)))])
            then Some(id) else None
  {
    hide CredsOf, PidfdsOf, Unexpected;
    AtMostOneRecord(f, Some(Credentials(0, 0, 0)));
    if id.pid.Some? {
      AtMostOneRecord(f, Some(Credentials(id.pid.value, p.uid, p.gid)));
    }
    var creds := CredsOf(f.controls);
    assert |creds| == 1 ==> creds == [creds[0]];
  }

  lemma {:induction false} LiveExactly(fds: seq<int>, fd: int)
    ensures multiset(LiveAll(fds))[fd] == if fd >= 0 then multiset(fds)[fd] else 0
  {
    if fds != [] {
      LiveExactly(fds[..|fds| - 1], fd);
      assert fds == fds[..|fds| - 1] + [fds[|fds| - 1]];
    }
  }

  /** The descriptors a record holds, sentinels included. */
  function Numbers(c: Control): seq<int> {
    match c
    case Rights(fds, _) => fds
    case Pidfd(Some(fd)) => [fd]
    case _ => []
  }

  function AllNumbers(controls: seq<Control>): seq<int> {
    if controls == [] then [] else AllNumbers(controls[..|controls| - 1]) + Numbers(controls[|controls| - 1])
  }

  lemma InstalledExactly(c: Control, fd: int)
    ensures multiset(Installed(c))[fd] == if fd >= 0 then multiset(Numbers(c))[fd] else 0
  {
    if c.Rights? {
      LiveExactly(c.fds, fd);
    }
  }

  /** Owned is every number in every rights or pidfd record, as often as it stands there, but the
      negative ones. */
  lemma {:induction false} OwnedExactly(controls: seq<Control>, fd: int)
    ensures multiset(Owned(controls))[fd] == if fd >= 0 then multiset(AllNumbers(controls))[fd] else 0
  {
    hide Installed, Numbers;
    if controls != [] {
      OwnedExactly(controls[..|controls| - 1], fd);
      InstalledExactly(controls[|controls| - 1], fd);
    }
  }

  // ---------------------------------------------------------------- as it runs

  method KeepLive(fds: seq<int>) returns (live: seq<int>)
    ensures live == LiveAll(fds)
  {
    live := [];
    for j := 0 to |fds|
      invariant live == LiveAll(fds[..j])
    {
      assert fds[..j + 1][..j] == fds[..j];
      if fds[j] >= 0 {
        live := live + [fds[j]];
      }
    }
    assert fds[..|fds|] == fds;
  }

  /** One pass over the ancillary records: every installed descriptor is owned before any check. */
  method Collect(controls: seq<Control>)
    returns (credentials: seq<Option<Credentials>>, pidfds: seq<Option<int>>, owned: seq<int>, unexpected: bool)
    ensures credentials == CredsOf(controls) && pidfds == PidfdsOf(controls) && owned == Owned(controls)
    ensures unexpected == Unexpected(controls)
  {
    hide LiveAll;
    credentials, pidfds, owned, unexpected := [], [], [], false;
    for i := 0 to |controls|
      invariant credentials == CredsOf(controls[..i]) && pidfds == PidfdsOf(controls[..i])
      invariant owned == Owned(controls[..i])
      invariant unexpected <==> exists j :: 0 <= j < i && (controls[j].Rights? || controls[j].OtherControl?)
    {
      assert controls[..i + 1][..i] == controls[..i];
      match controls[i] {
        case Rights(fds, ragged) =>
          unexpected := true;
          var live := KeepLive(fds);
          owned := owned + live;
        case Creds(creds) =>
          credentials := credentials + [creds];
        case Pidfd(fd) =>
          pidfds := pidfds + [fd];
          if fd.Some? && fd.value >= 0 {
            owned := owned + [fd.value];
          }
        case OtherControl =>
          unexpected := true;
      }
    }
    assert controls[..|controls|] == controls;
  }

  /** One server response. `received` and `closed` record every descriptor that came in and every
      call of `os.close`. */
  class FrameSender {
    const peer: Peer
    var pid: Option<int>
    var pidfd: Option<int>
    ghost var received: multiset<int>
    ghost var closed: multiset<int>

    function Held(): Identity
      reads this
    {
      Identity(pid, pidfd)
    }

    ghost function View(): Account
      reads this
    {
      Account(Held(), received, closed)
    }

    /** Nothing leaks and nothing is closed twice. */
    ghost predicate Valid()
      reads this
    {
      && received == closed + Retained(Held())
      && (pidfd.Some? ==> pid.Some?)
    }

    constructor (peer: Peer)
      ensures Valid() && View() == RunFrames(peer, []) && this.peer == peer
    {
      this.peer := peer;
      pid, pidfd := None, None;
      received, closed := multiset{}, multiset{};
    }

    method CloseDescriptor(fd: int)
      modifies `closed
      ensures closed == old(closed) + multiset{fd}
    {
      closed := closed + multiset{fd};
    }

    method Close()
      requires Valid()
      modifies this
      ensures Valid() && View() == Settled(peer, old(View()), CloseSender)
      ensures received == old(received) && closed == received
    {
      if pidfd.Some? {
        CloseDescriptor(pidfd.value);
        pidfd := None;
      }
    }

    method CloseAll(owned: seq<int>)
      modifies `closed
      ensures closed == old(closed) + multiset(owned)
    {
      for i := 0 to |owned|
        invariant closed == old(closed) + multiset(owned[..i])
      {
        CloseDescriptor(owned[i]);
        assert owned[..i + 1] == owned[..i] + [owned[i]];
      }
      assert owned[..|owned|] == owned;
    }

    /** Every descriptor of the fragment is owned from the start and closed at the end, whatever
        the verdict; only the one that binds the sender is taken out. */
    method Accept(f: Fragment, k: Kernel) returns (ok: bool)
      requires Valid()
      modifies this
      ensures Valid()
      ensures f.data != [] ==> (ok <==> exists n, fd :: Authentic(peer, k, old(Held()), f, n, fd))
      ensures f.data == [] ==>
                (ok <==> && old(pid).Some? && !f.flagged
                         && (f.controls == [] || f.controls == [Creds(Some(Credentials(0, 0, 0)))]
                             || f.controls == [Creds(Some(Credentials(old(pid).value, peer.uid, peer.gid)))]))
      ensures View() == Settled(peer, old(View()), Receive(f, k))
    {
      hide Judge, Owned, CredsOf, PidfdsOf, Unexpected, Settled, Authentic;
      if f.data == [] {
        EndJudgedExactly(peer, k, Held(), f);
      } else {
        DataJudgedExactly(peer, k, Held(), f);
      }
      var credentials, pidfds, owned, unexpected := Collect(f.controls);
      ghost var before, arrived := View(), owned;
      received := received + multiset(owned);
      ok, owned := Decide(f, k, credentials, pidfds, owned, unexpected);
      CloseAll(owned);
      AcceptSettles(peer, k, f, before, View(), arrived, owned, ok);
    }

    /** The checks in order; what is still owned afterwards is left to be closed. */
    method Decide(f: Fragment, k: Kernel, credentials: seq<Option<Credentials>>, pidfds: seq<Option<int>>, owned: seq<int>,
                  unexpected: bool) returns (ok: bool, left: seq<int>)
      requires credentials == CredsOf(f.controls) && pidfds == PidfdsOf(f.controls) && owned == Owned(f.controls)
      requires unexpected == Unexpected(f.controls) && (pidfd.Some? ==> pid.Some?)
      modifies `pid, `pidfd
      ensures ok <==> Judge(peer, k, old(Held()), f).Some?
      ensures Held() == if ok then Judge(peer, k, old(Held()), f).value else old(Held())
      ensures multiset(owned) + Retained(old(Held())) == multiset(left) + Retained(Held())
      ensures pidfd.Some? ==> pid.Some?
    {
      hide Owned, CredsOf, PidfdsOf, Unexpected;
      left := owned;
      if f.data == [] {
        var validEof := credentials == []
          || (|credentials| == 1 && credentials[0].Some? && pid.Some?
              && credentials[0].value in {Credentials(0, 0, 0), Credentials(pid.value, peer.uid, peer.gid)});
        return !(pid == None || f.flagged || unexpected || pidfds != [] || !validEof), left;
      }
      if f.flagged || unexpected || |credentials| != 1 || credentials[0].None? {
        return false, left;
      }
      var sender := credentials[0].value;
      if sender.pid <= 0 || sender.uid != peer.uid || sender.gid != peer.gid || (pid.Some? && sender.pid != pid.value) {
        return false, left;
      }
      if |pidfds| != 1 || pidfds[0].None? {
        return false, left;
      }
      var fd := pidfds[0].value;
      if pidfd.None? {
        if fd < 0 || k.pidOf(fd) != Some(sender.pid) || k.exited(fd) != Some(false) {
          return false, left;
        }
        pid, pidfd := Some(sender.pid), Some(fd);
        PidfdIsOwned(f.controls, fd);
        left := Remove(owned, fd);
        return true, left;
      }
      if fd < 0 {
        return fd >= -4095 && k.exited(pidfd.value) == Some(true), left;
      }
      return k.pidOf(fd) == pid, left;
    }
  }

  /** `list.remove`: the first occurrence goes. */
  method Remove(s: seq<int>, x: int) returns (r: seq<int>)
    requires x in s
    ensures multiset(r) + multiset{x} == multiset(s)
  {
    var i := 0;
    while s[i] != x
      invariant i < |s| && x in s[i..]
      decreases |s| - i
    {
      i := i + 1;
    }
    assert s == s[..i] + [x] + s[i + 1..];
    r := s[..i] + s[i + 1..];
  }

  // ---------------------------------------------------------------- over every sequence of fragments

  datatype FrameOp = Receive(f: Fragment, k: Kernel) | CloseSender

  datatype Account = Account(id: Identity, received: multiset<int>, closed: multiset<int>)

  /** What one operation must do with the descriptors. */
  function Settled(p: Peer, a: Account, op: FrameOp): Account {
    match op
    case CloseSender => Account(a.id.(pidfd := None), a.received, a.closed + Retained(a.id))
    case Receive(f, k) =>
      var arrived := multiset(Owned(f.controls));
      match Judge(p, k, a.id, f)
      case None => Account(a.id, a.received + arrived, a.closed + arrived)
      case Some(id) => Account(id, a.received + arrived, a.closed + (arrived - (Retained(id) - Retained(a.id))))
  }

  function RunFrames(p: Peer, ops: seq<FrameOp>): Account {
    if ops == [] then Account(UNBOUND, multiset{}, multiset{}) else Settled(p, RunFrames(p, ops[..|ops| - 1]), ops[|ops| - 1])
  }

  /** What an accepted fragment may change: nothing, or the first binding of an unbound sender. */
  lemma JudgedIdentity(p: Peer, k: Kernel, id: Identity, f: Fragment)
    requires Judge(p, k, id, f).Some? && (id.pidfd.Some? ==> id.pid.Some?)
    ensures var next := Judge(p, k, id, f).value;
            && (next != id ==> id.pidfd.None? && next.pidfd.Some? && next.pidfd.value in Owned(f.controls) && f.data != [])
            && (id.pid.Some? ==> next.pid == id.pid)
            && (next.pidfd.Some? ==> next.pid.Some?)
            && (f.data != [] ==> next.pid.Some? && CredsOf(f.controls) == [Some(Credentials(next.pid.value, p.uid, p.gid))])
  {
    hide Owned, CredsOf, PidfdsOf, Unexpected, EofOk;
    if f.data != [] && id.pidfd.None? {
      PidfdIsOwned(f.controls, PidfdsOf(f.controls)[0].value);
    }
  }

  lemma TakenOnce(arrived: multiset<int>, closed: multiset<int>, before: multiset<int>, after: multiset<int>)
    requires after == before || (before == multiset{} && after <= arrived)
    ensures closed + before + arrived == closed + (arrived - (after - before)) + after
  {
  }

  lemma LeftToClose(arrived: multiset<int>, left: multiset<int>, before: multiset<int>, after: multiset<int>)
    requires arrived + before == left + after && (after == before || (before == multiset{} && after <= arrived))
    ensures left == arrived - (after - before)
    ensures after == before ==> left == arrived
  {
    if after == before {
      assert left == (left + after) - after && arrived == (arrived + before) - before;
    } else {
      assert left == (left + after) - after;
    }
  }

  lemma AcceptSettles(p: Peer, k: Kernel, f: Fragment, before: Account, after: Account, arrived: seq<int>, left: seq<int>,
                      ok: bool)
    requires before.received == before.closed + Retained(before.id) && (before.id.pidfd.Some? ==> before.id.pid.Some?)
    requires ok <==> Judge(p, k, before.id, f).Some?
    requires after.id == if ok then Judge(p, k, before.id, f).value else before.id
    requires arrived == Owned(f.controls) && multiset(arrived) + Retained(before.id) == multiset(left) + Retained(after.id)
    requires after.received == before.received + multiset(arrived) && after.closed == before.closed + multiset(left)
    ensures after == Settled(p, before, Receive(f, k))
    ensures after.received == after.closed + Retained(after.id) && (after.id.pidfd.Some? ==> after.id.pid.Some?)
  {
    hide Judge, Owned;
    if ok {
      JudgedIdentity(p, k, before.id, f);
    }
    LeftToClose(multiset(arrived), multiset(left), Retained(before.id), Retained(after.id));
  }

  /** Every descriptor ever received was closed exactly once, but for the one retained. */
  lemma {:induction false} NothingLeaks(p: Peer, ops: seq<FrameOp>)
    ensures var a := RunFrames(p, ops); a.received == a.closed + Retained(a.id) && (a.id.pidfd.Some? ==> a.id.pid.Some?)
  {
    hide Judge;
    if ops != [] {
      var n := |ops| - 1;
      NothingLeaks(p, ops[..n]);
      var a := RunFrames(p, ops[..n]);
      if ops[n].Receive? && Judge(p, ops[n].k, a.id, ops[n].f).Some? {
        JudgedIdentity(p, ops[n].k, a.id, ops[n].f);
        TakenOnce(multiset(Owned(ops[n].f.controls)), a.closed, Retained(a.id),
                  Retained(Judge(p, ops[n].k, a.id, ops[n].f).value));
      }
    }
  }

  /** A retained pidfd is never replaced while open, and a bound sender never changes. */
  lemma BoundStaysBound(p: Peer, ops: seq<FrameOp>, op: FrameOp)
    ensures var a, next := RunFrames(p, ops), RunFrames(p, ops + [op]);
            && (a.id.pid.Some? ==> next.id.pid == a.id.pid)
            && (a.id.pidfd.Some? && op.Receive? ==> next.id.pidfd == a.id.pidfd)
            && (op.CloseSender? ==> next.id.pidfd == None && next.closed == next.received)
  {
    hide Judge;
    assert (ops + [op])[..|ops|] == ops;
    NothingLeaks(p, ops);
    NothingLeaks(p, ops + [op]);
    var a := RunFrames(p, ops);
    if op.Receive? && Judge(p, op.k, a.id, op.f).Some? {
      JudgedIdentity(p, op.k, a.id, op.f);
    }
  }

  predicate AcceptedData(p: Peer, ops: seq<FrameOp>, i: nat)
    requires i < |ops|
  {
    ops[i].Receive? && ops[i].f.data != [] && Judge(p, ops[i].k, RunFrames(p, ops[..i]).id, ops[i].f).Some?
  }

  /** All the data of one response came from one process of the fixed user and group: its credentials
      and, while it lives, its pidfd name it; the sentinel came only after it had exited. */
  lemma {:induction false} OneSender(p: Peer, ops: seq<FrameOp>, i: nat) returns (fd: int)
    requires i < |ops| && AcceptedData(p, ops, i)
    ensures var pid, held := RunFrames(p, ops).id.pid, RunFrames(p, ops[..i]).id.pidfd;
            && pid.Some? && Carries(ops[i].f.controls, Credentials(pid.value, p.uid, p.gid), fd)
            && (0 <= fd ==> ops[i].k.pidOf(fd) == pid)
            && (fd < 0 ==> held.Some? && ops[i].k.exited(held.value) == Some(true))
  {
    hide Judge;
    var n := |ops| - 1;
    assert ops == ops[..n] + [ops[n]];
    NothingLeaks(p, ops[..n]);
    if i == n {
      var id := RunFrames(p, ops[..n]).id;
      DataJudgedExactly(p, ops[n].k, id, ops[n].f);
      var pid, found :| Authentic(p, ops[n].k, id, ops[n].f, pid, found);
      fd := found;
    } else {
      assert ops[..n][..i] == ops[..i] && ops[..n][i] == ops[i];
      fd := OneSender(p, ops[..n], i);
      BoundStaysBound(p, ops[..n], ops[n]);
    }
  }

  /** The descriptor came with data, live, and named the sender. */
  predicate BoundBy(p: Peer, op: FrameOp, pid: int, fd: int) {
    && op.Receive? && op.f.data != [] && Carries(op.f.controls, Credentials(pid, p.uid, p.gid), fd)
    && op.k.pidOf(fd) == Some(pid) && op.k.exited(fd) == Some(false)
  }

  lemma BindingStep(p: Peer, a: Account, op: FrameOp)
    requires a.id.pidfd.None? && Settled(p, a, op).id.pidfd.Some?
    ensures var id := Settled(p, a, op).id;
            id.pid.Some? && BoundBy(p, op, id.pid.value, id.pidfd.value)
  {
    hide Judge, Owned, Carries;
    if op.f.data == [] {
      EndJudgedExactly(p, op.k, a.id, op.f);
    } else {
      DataJudgedExactly(p, op.k, a.id, op.f);
      var pid, fd :| Authentic(p, op.k, a.id, op.f, pid, fd);
    }
  }

  /** Over every run, a retained pidfd is one that some fragment brought when it named the bound sender
      and that sender was alive. */
  lemma {:induction false} RetainedNamesSender(p: Peer, ops: seq<FrameOp>) returns (i: nat)
    requires RunFrames(p, ops).id.pidfd.Some?
    ensures var id := RunFrames(p, ops).id;
            i < |ops| && id.pid.Some? && BoundBy(p, ops[i], id.pid.value, id.pidfd.value)
  {
    hide Judge, Settled, BoundBy;
    var n := |ops| - 1;
    assert ops == ops[..n] + [ops[n]];
    NothingLeaks(p, ops[..n]);
    BoundStaysBound(p, ops[..n], ops[n]);
    if RunFrames(p, ops[..n]).id.pidfd.Some? {
      i := RetainedNamesSender(p, ops[..n]);
    } else {
      i := n;
      BindingStep(p, RunFrames(p, ops[..n]), ops[n]);
    }
  }
}
