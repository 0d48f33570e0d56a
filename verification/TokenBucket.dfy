/** One token bucket per subject (geniusnew/http_entry.py), with reals for floats, and its exact
    characterisation: a call is granted unless some window that ends with it is already full. */
module TokenBucket {
  import opened Prelude

  datatype Bucket = Bucket(tokens: real, last: real)

  datatype Limits = Limits(rate: real, burst: real) {
    predicate Valid() { rate >= 0.0 && burst >= 0.0 }
  }

  function MinReal(a: real, b: real): real { if a < b then a else b }
  function MaxReal(a: real, b: real): real { if a < b then b else a }

  // ---------------------------------------------------------------- one call

  /** A first call finds its bucket full. */
  function Found(l: Limits, state: Option<Bucket>, now: real): Bucket {
    if state.Some? then state.value else Bucket(l.burst, now)
  }

  function Minted(l: Limits, elapsed: real): real { elapsed * l.rate }

  /** A clock that steps back mints nothing. */
  function Refilled(l: Limits, b: Bucket, now: real): real {
    MinReal(l.burst, b.tokens + Minted(l, MaxReal(0.0, now - b.last)))
  }

  function Drained(l: Limits, b: Bucket, now: real): Bucket {
    var tokens := Refilled(l, b, now);
    Bucket(if tokens >= 1.0 then tokens - 1.0 else tokens, MaxReal(b.last, now))
  }

  // ---------------------------------------------------------------- a subject's whole history

  /** What calls at these clock readings leave behind. */
  function State(l: Limits, clock: seq<real>): Option<Bucket> {
    if clock == [] then None
    else
      var n := |clock| - 1;
      Some(Drained(l, Found(l, State(l, clock[..n]), clock[n]), clock[n]))
  }

  /** The tokens call `k` finds. */
  function Tokens(l: Limits, clock: seq<real>, k: nat): real
    requires k < |clock|
  {
    Refilled(l, Found(l, State(l, clock[..k]), clock[k]), clock[k])
  }

  predicate Granted(l: Limits, clock: seq<real>, k: nat)
    requires k < |clock|
  {
    Tokens(l, clock, k) >= 1.0
  }

  /** The latest reading seen by call `k`. */
  function Latest(clock: seq<real>, k: nat): real
    requires k < |clock|
  {
    if k == 0 then clock[0] else MaxReal(Latest(clock, k - 1), clock[k])
  }

  /** The grants in calls `i .. k - 1`. */
  function Grants(l: Limits, clock: seq<real>, i: nat, k: nat): nat
    requires i <= k <= |clock|
  {
    if i == k then 0
    else Grants(l, clock, i, k - 1) + (if Granted(l, clock, k - 1) then 1 else 0)
  }

  /** It is the greatest reading up to that call: a clock that steps back does not move it. */
  lemma {:induction false} LatestIsGreatest(clock: seq<real>, k: nat, i: nat)
    requires i <= k < |clock|
    ensures clock[i] <= Latest(clock, k) && Latest(clock, k) in clock[..k + 1]
  {
    if k > 0 {
      LatestIsGreatest(clock, k - 1, if i < k then i else 0);
      assert clock[..k + 1] == clock[..k] + [clock[k]];
    }
  }

  /** What the window from call `i` to call `k` may grant in all: the burst, and the rate for each second
      that the latest reading rose. */
  ghost function Allowance(l: Limits, clock: seq<real>, i: nat, k: nat): real
    requires i <= k < |clock|
  {
    l.burst + (Latest(clock, k) - Latest(clock, i)) * l.rate
  }

  // ---------------------------------------------------------------- exactness

  lemma {:induction false} LastIsLatest(l: Limits, clock: seq<real>, k: nat)
    requires k < |clock|
    ensures State(l, clock[..k + 1]) ==
            Some(Bucket(if Granted(l, clock, k) then Tokens(l, clock, k) - 1.0 else Tokens(l, clock, k),
                        Latest(clock, k)))
  {
    assert clock[..k + 1][..k] == clock[..k];
    if k > 0 {
      LastIsLatest(l, clock, k - 1);
    }
  }

  function Elapsed(clock: seq<real>, k: nat): (e: real)
    requires 0 < k < |clock|
    ensures e >= 0.0
  {
    Latest(clock, k) - Latest(clock, k - 1)
  }

  function Spent(l: Limits, clock: seq<real>, k: nat): real
    requires k < |clock|
  {
    if Granted(l, clock, k) then 1.0 else 0.0
  }

  lemma NextTokens(l: Limits, clock: seq<real>, k: nat)
    requires 0 < k < |clock|
    ensures Tokens(l, clock, k) ==
            MinReal(l.burst, Tokens(l, clock, k - 1) - Spent(l, clock, k - 1) + Minted(l, Elapsed(clock, k)))
  {
    var n := k - 1;
    LastIsLatest(l, clock, n);
    var before := State(l, clock[..k]).value;
    assert before.last == Latest(clock, n);
    assert MaxReal(0.0, clock[k] - before.last) == Elapsed(clock, k);
  }

  lemma AllowanceGrows(l: Limits, clock: seq<real>, i: nat, k: nat)
    requires l.Valid() && i < k < |clock|
    ensures Allowance(l, clock, i, k) == Allowance(l, clock, i, k - 1) + Minted(l, Elapsed(clock, k))
    ensures Minted(l, Elapsed(clock, k)) >= 0.0
  {
    var a, b := Latest(clock, k - 1) - Latest(clock, i), Elapsed(clock, k);
    assert (a + b) * l.rate == a * l.rate + b * l.rate;
  }

  lemma FirstTokens(l: Limits, clock: seq<real>, k: nat)
    requires k < |clock|
    ensures Tokens(l, clock, 0) == l.burst && Allowance(l, clock, k, k) == l.burst
  {
  }

  lemma {:induction false} TokensBelowEveryWindow(l: Limits, clock: seq<real>, i: nat, k: nat)
    requires l.Valid() && i <= k < |clock|
    ensures 0.0 <= Tokens(l, clock, k) <= Allowance(l, clock, i, k) - Grants(l, clock, i, k) as real
    decreases k
  {
    hide Allowance, Minted, Tokens, Latest;
    FirstTokens(l, clock, k);
    if k > 0 {
      NextTokens(l, clock, k);
      AllowanceGrows(l, clock, k - 1, k);
      TokensBelowEveryWindow(l, clock, if i < k then i else k - 1, k - 1);
      if i < k {
        AllowanceGrows(l, clock, i, k);
      }
    }
  }

  lemma {:induction false} SomeWindowIsTight(l: Limits, clock: seq<real>, k: nat) returns (i: nat)
    requires l.Valid() && k < |clock|
    ensures i <= k && Tokens(l, clock, k) == Allowance(l, clock, i, k) - Grants(l, clock, i, k) as real
  {
    if k == 0 {
      i := 0;
    } else {
      NextTokens(l, clock, k);
      i := SomeWindowIsTight(l, clock, k - 1);
      AllowanceGrows(l, clock, i, k);
      if Tokens(l, clock, k) == l.burst {
        i := k;
      }
    }
  }

  /** With call `k` granted, the window from call `i` stays within its allowance. */
  ghost predicate FitsFrom(l: Limits, clock: seq<real>, i: nat, k: nat)
    requires i <= k < |clock|
  {
    Grants(l, clock, i, k) as real + 1.0 <= l.burst + (Latest(clock, k) - Latest(clock, i)) * l.rate
  }

  ghost predicate FitsEveryWindow(l: Limits, clock: seq<real>, k: nat)
    requires k < |clock|
  {
    forall i: nat :: i <= k ==> FitsFrom(l, clock, i, k)
  }

  /** The bucket is exact: a call is granted exactly when every window that ends with it still has room,
      so nothing is refused that fits, and nothing granted that does not. */
  lemma GrantedExactly(l: Limits, clock: seq<real>, k: nat)
    requires l.Valid() && k < |clock|
    ensures Granted(l, clock, k) <==> FitsEveryWindow(l, clock, k)
  {
    hide Tokens, Latest, Grants;
    forall i: nat | i <= k
      ensures Granted(l, clock, k) ==> FitsFrom(l, clock, i, k)
    {
      TokensBelowEveryWindow(l, clock, i, k);
    }
    var tight := SomeWindowIsTight(l, clock, k);
    assert FitsFrom(l, clock, tight, k) ==> Granted(l, clock, k);
  }

  lemma WindowIsBounded(l: Limits, clock: seq<real>, i: nat, k: nat)
    requires l.Valid() && i <= k < |clock|
    ensures Grants(l, clock, i, k + 1) as real <= Allowance(l, clock, i, k)
  {
    hide Allowance, Tokens, Latest;
    TokensBelowEveryWindow(l, clock, i, k);
  }

  /** No window of calls grants more than the burst plus what the clock minted across it. */
  lemma EveryWindowIsBounded(l: Limits, clock: seq<real>, i: nat, k: nat)
    requires l.Valid() && i <= k < |clock|
    ensures Grants(l, clock, i, k + 1) as real <= l.burst + (Latest(clock, k) - Latest(clock, i)) * l.rate
  {
    hide Grants, Tokens, Latest;
    WindowIsBounded(l, clock, i, k);
  }

  /** One more call, from the bucket it finds. */
  lemma NextState(l: Limits, before: seq<real>, now: real)
    ensures var b := if before == [] then Bucket(l.burst, now) else State(l, before).value;
            var tokens := MinReal(l.burst, b.tokens + Minted(l, MaxReal(0.0, now - b.last)));
            && (Granted(l, before + [now], |before|) <==> tokens >= 1.0)
            && State(l, before + [now]) ==
               Some(Bucket(if tokens >= 1.0 then tokens - 1.0 else tokens, MaxReal(b.last, now)))
    ensures State(l, before) == None <==> before == []
  {
    hide State, Minted, MinReal, Latest;
    Unfolds(l, before, now);
  }

  lemma Unfolds(l: Limits, before: seq<real>, now: real)
    ensures State(l, before + [now]) == Some(Drained(l, Found(l, State(l, before), now), now))
    ensures Tokens(l, before + [now], |before|) == Refilled(l, Found(l, State(l, before), now), now)
    ensures State(l, before) == None <==> before == []
  {
    hide Drained, Refilled, Found;
    var clock := before + [now];
    assert clock[..|before|] == before && clock[|before|] == now && |clock| - 1 == |before|;
  }

  // ---------------------------------------------------------------- the registry of buckets

  class Buckets {
    const limits: Limits
    var state: map<string, Bucket>
    ghost var history: map<string, seq<real>>

    ghost predicate Valid()
      reads this
    {
      && limits.Valid()
      && state.Keys == history.Keys
      && forall s :: s in history ==> State(limits, history[s]) == Some(state[s])
    }

    ghost function Readings(subject: string): seq<real>
      reads this
    {
      if subject in history then history[subject] else []
    }

    constructor (ratePerMinute: nat, burst: nat)
      ensures Valid() && history == map[]
      ensures limits == Limits(ratePerMinute as real / 60.0, burst as real)
    {
      limits := Limits(ratePerMinute as real / 60.0, burst as real);
      state, history := map[], map[];
    }

    /** One call: only this subject's own readings decide it, and only its bucket changes. */
    method Take(subject: string, now: real) returns (granted: bool)
      requires Valid()
      modifies this
      ensures Valid()
      ensures history == old(history)[subject := old(Readings(subject)) + [now]]
      ensures granted <==> FitsEveryWindow(limits, Readings(subject), |old(Readings(subject))|)
      ensures state == old(state)[subject := state[subject]]
    {
      hide FitsEveryWindow, State, Granted, Minted, MinReal;
      ghost var before := Readings(subject);
      var bucket := if subject in state then state[subject] else Bucket(limits.burst, now);
      NextState(limits, before, now);
      var tokens := MinReal(limits.burst, bucket.tokens + Minted(limits, MaxReal(0.0, now - bucket.last)));
      granted := tokens >= 1.0;
      state := state[subject := Bucket(if granted then tokens - 1.0 else tokens, MaxReal(bucket.last, now))];
      history := history[subject := before + [now]];
      GrantedExactly(limits, before + [now], |before|);
    }
  }
}
