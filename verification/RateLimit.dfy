/** The token bucket kept in Redis (ingestion/app/rate_limit.py). Tokens are counted in
    thousandths, so `elapsed_ms * rate` is exact. */
module RateLimit {
  import opened Prelude

  const GRACE_MS := 60000

  datatype Params = Params(rate: nat, burst: nat)

  /** The hash stored under a key: thousandths of a token, and the caller's clock at the write. */
  datatype Bucket = Bucket(tokens: int, ts: int)

  datatype Request = Request(cost: nat, now: int)

  /** The tokens a request finds: a missing bucket is full, an old one is refilled. */
  function Refilled(p: Params, b: Option<Bucket>, now: int): int {
    match b
    case None => p.burst * 1000
    case Some(Bucket(tokens, ts)) => Min(p.burst * 1000, tokens + Max(0, now - ts) * p.rate)
  }

  predicate Allows(p: Params, b: Option<Bucket>, r: Request) {
    Refilled(p, b, r.now) >= r.cost * 1000
  }

  /** The bucket the script writes back. */
  function Written(p: Params, b: Option<Bucket>, r: Request): Bucket {
    Bucket(Refilled(p, b, r.now) - (if Allows(p, b, r) then r.cost * 1000 else 0), r.now)
  }

  // ---------------------------------------------------------------- one key over time

  /** The bucket after the first `i` requests of a key. */
  function After(p: Params, rs: seq<Request>, i: nat): Option<Bucket>
    requires i <= |rs|
  {
    if i == 0 then None else Some(Written(p, After(p, rs, i - 1), rs[i - 1]))
  }

  predicate Admits(p: Params, rs: seq<Request>, i: nat)
    requires i < |rs|
  {
    Allows(p, After(p, rs, i), rs[i])
  }

  /** The cost admitted among requests j .. i-1, in thousandths. */
  function Admitted(p: Params, rs: seq<Request>, j: nat, i: nat): nat
    requires i <= |rs|
    decreases i
  {
    if i <= j then 0
    else Admitted(p, rs, j, i - 1) + (if Admits(p, rs, i - 1) then rs[i - 1].cost * 1000 else 0)
  }

  /** The sum of the forward steps of the callers' clocks between requests j and i. */
  function Forward(rs: seq<Request>, j: nat, i: nat): nat
    requires i < |rs|
    decreases i
  {
    if i <= j then 0 else Forward(rs, j, i - 1) + Max(0, rs[i].now - rs[i - 1].now)
  }

  predicate NonDecreasing(rs: seq<Request>) {
    forall i :: 0 < i < |rs| ==> rs[i - 1].now <= rs[i].now
  }

  /** Where no clock steps back that is the time between the two requests. */
  lemma {:induction false} ForwardIsElapsed(rs: seq<Request>, j: nat, i: nat)
    requires j <= i < |rs| && NonDecreasing(rs)
    ensures Forward(rs, j, i) == rs[i].now - rs[j].now
    decreases i
  {
    if j < i {
      ForwardIsElapsed(rs, j, i - 1);
    }
  }

  /** What is left at request `i` of a burst at request `j` and the refill since. */
  function Left(p: Params, rs: seq<Request>, j: nat, i: nat): int
    requires j <= i < |rs|
  {
    p.burst * 1000 + Forward(rs, j, i) * p.rate - Admitted(p, rs, j, i)
  }

  function Spent(p: Params, rs: seq<Request>, i: nat): nat
    requires i < |rs|
  {
    if Admits(p, rs, i) then rs[i].cost * 1000 else 0
  }

  lemma {:induction false} LeftStep(p: Params, rs: seq<Request>, k: nat, i: nat)
    requires k < i < |rs|
    ensures Left(p, rs, k, i) ==
            Left(p, rs, k, i - 1) + Max(0, rs[i].now - rs[i - 1].now) * p.rate - Spent(p, rs, i - 1)
  {
    Distribute(Max(0, rs[i].now - rs[i - 1].now), Forward(rs, k, i - 1), p.rate);
  }

  lemma {:induction false} RefilledStep(p: Params, rs: seq<Request>, i: nat)
    requires 0 < i < |rs|
    ensures Refilled(p, After(p, rs, i), rs[i].now) ==
            Min(p.burst * 1000, Refilled(p, After(p, rs, i - 1), rs[i - 1].now) - Spent(p, rs, i - 1)
                                + Max(0, rs[i].now - rs[i - 1].now) * p.rate)
  {
    hide Refilled, Allows;
    var b := After(p, rs, i - 1);
    assert After(p, rs, i) == Some(Written(p, b, rs[i - 1]));
    RefillOf(p, Written(p, b, rs[i - 1]), rs[i].now);
  }

  lemma RefillOf(p: Params, b: Bucket, now: int)
    ensures Refilled(p, Some(b), now) == Min(p.burst * 1000, b.tokens + Max(0, now - b.ts) * p.rate)
  {
  }

  /** MAIN: the bucket is exact whatever the callers' clocks do: the tokens found by request `i`
      are the least of what is `Left` from every request j <= i. */
  lemma {:induction false} TokensAreMinimum(p: Params, rs: seq<Request>, i: nat) returns (j: nat)
    requires i < |rs|
    ensures forall k :: 0 <= k <= i ==> Refilled(p, After(p, rs, i), rs[i].now) <= Left(p, rs, k, i)
    ensures j <= i && Refilled(p, After(p, rs, i), rs[i].now) == Left(p, rs, j, i)
  {
    assert Left(p, rs, i, i) == p.burst * 1000;
    if i == 0 {
      j := 0;
    } else {
      hide Left, Refilled, After, Spent;
      var h := TokensAreMinimum(p, rs, i - 1);
      RefilledStep(p, rs, i);
      forall k | 0 <= k < i
        ensures Refilled(p, After(p, rs, i), rs[i].now) <= Left(p, rs, k, i)
      {
        LeftStep(p, rs, k, i);
      }
      LeftStep(p, rs, h, i);
      j := if Refilled(p, After(p, rs, i), rs[i].now) == p.burst * 1000 then i else h;
    }
  }

  lemma Distribute(a: int, b: int, r: int)
    ensures (a + b) * r == a * r + b * r
  {
  }

  /** MAIN: for any clocks, stepping back or not, request `i` is refused if and only if some request
      j <= i starts a stretch whose admitted cost, with request i's own, exceeds the burst plus
      the refill over the forward steps of the clock since j. */
  lemma {:induction false} RefusedIffOverBudget(p: Params, rs: seq<Request>, i: nat)
    requires i < |rs|
    ensures !Admits(p, rs, i) <==>
            exists j :: 0 <= j <= i &&
              Admitted(p, rs, j, i) + rs[i].cost * 1000 > p.burst * 1000 + Forward(rs, j, i) * p.rate
  {
    var h := TokensAreMinimum(p, rs, i);
    assert Left(p, rs, h, i) == p.burst * 1000 + Forward(rs, h, i) * p.rate - Admitted(p, rs, h, i);
    if j: nat :| j <= i && Admitted(p, rs, j, i) + rs[i].cost * 1000 > p.burst * 1000 + Forward(rs, j, i) * p.rate {
      assert Left(p, rs, j, i) < rs[i].cost * 1000;
    }
  }

  /** Tokens stay between nothing and a full bucket, whatever the clocks do. */
  lemma {:induction false} TokensInRange(p: Params, rs: seq<Request>, i: nat)
    requires 0 < i <= |rs|
    ensures After(p, rs, i).Some? && 0 <= After(p, rs, i).value.tokens <= p.burst * 1000
    ensures After(p, rs, i).value.ts == rs[i - 1].now
  {
    if i > 1 {
      TokensInRange(p, rs, i - 1);
      NonNegative(Max(0, rs[i - 1].now - rs[i - 2].now), p.rate);
    }
  }

  lemma NonNegative(a: nat, b: nat)
    ensures a * b >= 0
  {
  }

  /** MAIN: even with clocks that step back between callers, any run of requests is admitted at
      most the burst plus the rate times the forward steps of the clock. */
  lemma {:induction false} AdmittedWithinBudget(p: Params, rs: seq<Request>, j: nat, i: nat)
    requires j < i <= |rs|
    ensures Admitted(p, rs, j, i) <= p.burst * 1000 + Forward(rs, j, i - 1) * p.rate
  {
    var h := TokensAreMinimum(p, rs, i - 1);
    assert Refilled(p, After(p, rs, i - 1), rs[i - 1].now) <= Left(p, rs, j, i - 1);
    if i > 1 {
      TokensInRange(p, rs, i - 1);
      NonNegative(Max(0, rs[i - 1].now - rs[i - 2].now), p.rate);
    }
  }

  // ---------------------------------------------------------------- key expiry

  /** A request with Redis's own clock beside the caller's. */
  datatype Timed = Timed(request: Request, redisNow: int)

  function CeilDiv(a: nat, b: nat): (q: nat)
    requires b > 0
    ensures q * b >= a
  {
    (a + b - 1) / b
  }

  /** PEXPIRE's argument. */
  function Ttl(p: Params): nat
    requires p.rate > 0
  {
    CeilDiv(p.burst * 1000, p.rate) + GRACE_MS
  }

  /** The bucket request `i` finds when idle keys vanish after their time to live. */
  function Found(p: Params, ts: seq<Timed>, i: nat): Option<Bucket>
    requires p.rate > 0 && i < |ts|
    decreases i, 0
  {
    if i == 0 || ts[i].redisNow - ts[i - 1].redisNow >= Ttl(p) then None else Some(Kept(p, ts, i - 1))
  }

  /** The bucket request `i` writes, in that limiter. */
  function Kept(p: Params, ts: seq<Timed>, i: nat): Bucket
    requires p.rate > 0 && i < |ts|
    decreases i, 1
  {
    Written(p, Found(p, ts, i), ts[i].request)
  }

  function Requests(ts: seq<Timed>): (rs: seq<Request>)
    ensures |rs| == |ts|
    ensures forall i :: 0 <= i < |ts| ==> rs[i] == ts[i].request
  {
    seq(|ts|, i requires 0 <= i < |ts| => ts[i].request)
  }

  /** Between two requests Redis's clock never gains more than the grace time on the caller's. */
  predicate DriftBounded(ts: seq<Timed>, drift: int) {
    forall i :: 0 < i < |ts| ==>
      (ts[i].redisNow - ts[i - 1].redisNow) - (ts[i].request.now - ts[i - 1].request.now) <= drift
  }

  /** MAIN: expiry is unobservable: with at most 60 s of drift while a key is idle, a limiter
      whose keys vanish finds the same tokens, decides the same and writes the same as one that
      keeps every key. */
  lemma {:induction false} ExpiryUnobservable(p: Params, ts: seq<Timed>, i: nat)
    requires p.rate > 0 && i < |ts| && DriftBounded(ts, 60_000)
    ensures var rs := Requests(ts);
            && Refilled(p, Found(p, ts, i), rs[i].now) == Refilled(p, After(p, rs, i), rs[i].now)
            && (Allows(p, Found(p, ts, i), rs[i]) <==> Admits(p, rs, i))
            && Some(Kept(p, ts, i)) == After(p, rs, i + 1)
  {
    var rs := Requests(ts);
    if i > 0 {
      ExpiryUnobservable(p, ts, i - 1);
      if Found(p, ts, i).None? {
        TokensInRange(p, rs, i);
        var idle := rs[i].now - rs[i - 1].now;
        assert idle >= CeilDiv(p.burst * 1000, p.rate);
        MulMonotone(CeilDiv(p.burst * 1000, p.rate), idle, p.rate);
        assert idle * p.rate >= p.burst * 1000;
      }
    }
  }

  /** MAIN: the grace time is needed to the millisecond: for every rate and burst above zero there
      are two requests between which one more millisecond of drift changes the second decision. */
  lemma {:induction false} GraceIsTight(p: Params)
    requires p.rate > 0 && p.burst > 0
    ensures exists ts: seq<Timed> :: |ts| == 2 && DriftBounded(ts, 60_001) &&
              Allows(p, Found(p, ts, 1), ts[1].request) && !Admits(p, Requests(ts), 1)
  {
    var full := CeilDiv(p.burst * 1000, p.rate);
    CeilIsLeast(p.burst * 1000, p.rate);
    var ts := [Timed(Request(p.burst, 0), 0), Timed(Request(p.burst, full - 1), Ttl(p))];
    var rs := Requests(ts);
    assert After(p, rs, 0) == None;
    assert After(p, rs, 1) == Some(Bucket(0, 0));
    assert DriftBounded(ts, 60_001);
    assert Found(p, ts, 1) == None;
    assert !Admits(p, rs, 1);
  }

  /** One less than the rounded-up quotient is not enough. */
  lemma CeilIsLeast(a: nat, b: nat)
    requires a > 0 && b > 0
    ensures CeilDiv(a, b) >= 1 && (CeilDiv(a, b) - 1) * b < a
  {
    var q := CeilDiv(a, b);
    assert q * b <= a + b - 1;
    assert q * b == (q - 1) * b + b;
  }

  // ---------------------------------------------------------------- the limiter

  function KeyFor(identity: string): string {
    "rl:ingest:" + identity
  }

  /** The requests of one identity, in order. */
  function Of(identity: string, calls: seq<(string, Request)>): seq<Request> {
    if calls == [] then []
    else
      var n := |calls| - 1;
      Of(identity, calls[..n]) + (if calls[n].0 == identity then [calls[n].1] else [])
  }

  function Lookup(store: map<string, Bucket>, key: string): Option<Bucket> {
    if key in store then Some(store[key]) else None
  }

  /** The store after a sequence of calls for any identities. */
  function StoreAfter(p: Params, calls: seq<(string, Request)>): map<string, Bucket> {
    if calls == [] then map[]
    else
      var n := |calls| - 1;
      var store := StoreAfter(p, calls[..n]);
      var key := KeyFor(calls[n].0);
      store[key := Written(p, Lookup(store, key), calls[n].1)]
  }

  lemma {:induction false} AfterOfPrefix(p: Params, rs: seq<Request>, more: seq<Request>, i: nat)
    requires i <= |rs|
    ensures After(p, rs + more, i) == After(p, rs, i)
  {
    if i > 0 {
      AfterOfPrefix(p, rs, more, i - 1);
    }
  }

  /** Identities do not share a bucket: each one's is what its own requests alone would leave. */
  lemma {:induction false} IdentitiesAreIndependent(p: Params, calls: seq<(string, Request)>, identity: string)
    ensures var rs := Of(identity, calls);
            Lookup(StoreAfter(p, calls), KeyFor(identity)) == After(p, rs, |rs|)
  {
    if calls != [] {
      var n := |calls| - 1;
      var rs := Of(identity, calls[..n]);
      IdentitiesAreIndependent(p, calls[..n], identity);
      KeysDiffer(identity, calls[n].0);
      if calls[n].0 == identity {
        AfterOfPrefix(p, rs, [calls[n].1], |rs|);
      } else {
        assert rs + [] == rs;
      }
    }
  }

  lemma KeysDiffer(a: string, b: string)
    ensures KeyFor(a) == KeyFor(b) <==> a == b
  {
    var n := |"rl:ingest:"|;
    assert KeyFor(a)[n..] == a && KeyFor(b)[n..] == b;
  }

  class RateLimiter {
    const p: Params
    var store: map<string, Bucket>
    ghost var calls: seq<(string, Request)>

    ghost predicate Valid()
      reads this
    {
      store == StoreAfter(p, calls)
    }

    constructor (rate: nat, burst: nat)
      ensures Valid() && p == Params(rate, burst) && store == map[] && calls == []
    {
      p, store, calls := Params(rate, burst), map[], [];
    }

    /** `consume`: the script runs atomically; returns whether the cost was admitted and what
        is left of the tokens. */
    method Consume(identity: string, cost: nat, now: int) returns (allowed: bool, tokens: int)
      requires Valid()
      modifies this
      ensures Valid() && calls == old(calls) + [(identity, Request(cost, now))]
      ensures var rs := Of(identity, calls);
              && |rs| == |Of(identity, old(calls))| + 1
              && allowed == Admits(p, rs, |rs| - 1)
              && After(p, rs, |rs|) == Some(Bucket(tokens, now))
    {
      hide Written, Allows, After;
      var key := KeyFor(identity);
      ghost var call := (identity, Request(cost, now));
      ghost var rs := Of(identity, calls);
      IdentitiesAreIndependent(p, calls, identity);
      OneMore(p, rs, call.1);
      allowed, tokens := Script(p, Lookup(store, key), cost, now);
      store := store[key := Bucket(tokens, now)];
      calls := calls + [call];
      assert calls[..|calls| - 1] == old(calls);
      assert Of(identity, calls) == rs + [call.1];
    }
  }

  lemma {:induction false} OneMore(p: Params, rs: seq<Request>, r: Request)
    ensures After(p, rs + [r], |rs| + 1) == Some(Written(p, After(p, rs, |rs|), r))
    ensures Admits(p, rs + [r], |rs|) <==> Allows(p, After(p, rs, |rs|), r)
  {
    AfterOfPrefix(p, rs, [r], |rs|);
  }

  /** The Lua script on one key: refill, take the cost if it fits, write back. */
  method Script(p: Params, data: Option<Bucket>, cost: nat, now: int) returns (allowed: bool, tokens: int)
    ensures allowed == Allows(p, data, Request(cost, now))
    ensures Bucket(tokens, now) == Written(p, data, Request(cost, now))
  {
    var ts := now;
    tokens := p.burst * 1000;
    if data.Some? {
      tokens, ts := data.value.tokens, data.value.ts;
    }
    NonNegative(Max(0, now - ts), p.rate);
    tokens := Min(p.burst * 1000, tokens + Max(0, now - ts) * p.rate);
    allowed := false;
    if tokens >= cost * 1000 {
      tokens := tokens - cost * 1000;
      allowed := true;
    }
  }
}
