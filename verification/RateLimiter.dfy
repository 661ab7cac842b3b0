/** The rate limiter: one counter per key, incremented and given an expiry in a single
    transaction. Time is a whole number of units; a counter is gone once its expiry has
    come, so that `window` is the number of units it lives through. (Redis keeps a key
    through the millisecond of its expiry: there a window has one unit more.) */
module RateLimiter {
  import opened Wrappers

  datatype RateLimit = RateLimit(max: int, window: int, key: string)

  datatype Counter = Counter(count: nat, expiresAt: Option<int>)

  predicate Expired(c: Counter, now: int) { c.expiresAt.Some? && c.expiresAt.value <= now }

  function Live(c: Option<Counter>, now: int): Option<Counter> {
    if c.Some? && !Expired(c.value, now) then c else None
  }

  /** INCR creates the counter at 1 without an expiry; EXPIRE NX sets an expiry only
      where there is none. */
  function Step(c: Option<Counter>, limit: RateLimit, now: int): Counter {
    var count := (match Live(c, now) case Some(live) => live.count case None => 0) + 1;
    match Live(c, now)
    case Some(Counter(_, Some(at))) => Counter(count, Some(at))
    case _ => Counter(count, Some(now + limit.window))
  }

  function KeyFor(limit: RateLimit, name: string, ip: string): string {
    if limit.key != "" then limit.key else name + "_" + ip
  }

  function At(store: map<string, Counter>, key: string): Option<Counter> {
    if key in store then Some(store[key]) else None
  }

  class Redis {
    var store: map<string, Counter>

    constructor ()
      ensures store == map[]
    {
      store := map[];
    }

    method Incr(key: string, now: int) returns (count: nat)
      modifies this
      ensures var live := Live(At(old(store), key), now);
              && count == (if live.Some? then live.value.count else 0) + 1
              && store == old(store)[key := Counter(count, if live.Some? then live.value.expiresAt else None)]
    {
      var live := Live(At(store, key), now);
      count := 1;
      var expiresAt: Option<int> := None;
      if live.Some? {
        count, expiresAt := live.value.count + 1, live.value.expiresAt;
      }
      store := store[key := Counter(count, expiresAt)];
    }

    method ExpireNX(key: string, window: int, now: int)
      requires key in store
      modifies this
      ensures store == old(store)[key := Counter(old(store)[key].count,
                if old(store)[key].expiresAt.Some? then old(store)[key].expiresAt else Some(now + window))]
    {
      if store[key].expiresAt.None? {
        store := store[key := store[key].(expiresAt := Some(now + window))];
      } else {
        assert store == store[key := store[key]];
      }
    }

    /** An endpoint without a limiter admits everything and counts nothing. */
    method CheckRateLimit(rateLimiter: Option<RateLimit>, name: string, ip: string, now: int) returns (admitted: bool)
      modifies this
      ensures rateLimiter.None? ==> admitted && store == old(store)
      ensures rateLimiter.Some? ==>
                var limit := rateLimiter.value;
                var key := KeyFor(limit, name, ip);
                && store == old(store)[key := Step(At(old(store), key), limit, now)]
                && (admitted <==> store[key].count <= limit.max)
    {
      if rateLimiter.None? {
        return true;
      }
      var limit := rateLimiter.value;
      var key := name + "_" + ip;
      if limit.key != "" {
        key := limit.key;
      }
      var count := Incr(key, now);
      ExpireNX(key, limit.window, now);
      if count > limit.max {
        return false;
      }
      admitted := true;
    }
  }

  // ----- runs on one key -----

  /** The counter before request i of a run that starts without one. */
  function Before(times: seq<int>, limit: RateLimit, i: nat): Option<Counter>
    requires i <= |times|
  {
    if i == 0 then None else Some(Step(Before(times, limit, i - 1), limit, times[i - 1]))
  }

  predicate Admits(times: seq<int>, limit: RateLimit, i: nat)
    requires i < |times|
  {
    Step(Before(times, limit, i), limit, times[i]).count <= limit.max
  }

  predicate NonDecreasing(times: seq<int>) { forall i, j :: 0 <= i <= j < |times| ==> times[i] <= times[j] }

  /** The request that opened the window request i falls into. */
  function Opener(times: seq<int>, window: int, i: nat): (s: nat)
    requires i < |times|
    ensures s <= i
  {
    if i == 0 then 0
    else
      var s := Opener(times, window, i - 1);
      if times[i] < times[s] + window then s else i
  }

  /** The counter's state in closed form: it counts the requests since the opener and
      expires one window after it. In particular it always has an expiry. */
  lemma {:induction false} CounterInWindow(times: seq<int>, limit: RateLimit, i: nat)
    requires NonDecreasing(times) && i < |times| && limit.window >= 1
    ensures var s := Opener(times, limit.window, i);
            Before(times, limit, i + 1) == Some(Counter(i - s + 1, Some(times[s] + limit.window)))
  {
    if i > 0 {
      CounterInWindow(times, limit, i - 1);
    }
  }

  /** A request is admitted exactly when it is among the first Max of its window. */
  lemma AdmittedIffEarly(times: seq<int>, limit: RateLimit, i: nat)
    requires NonDecreasing(times) && i < |times| && limit.window >= 1
    ensures Admits(times, limit, i) <==> i - Opener(times, limit.window, i) < limit.max
  {
    CounterInWindow(times, limit, i);
  }

  function CountAdmitted(times: seq<int>, limit: RateLimit, lo: nat, hi: nat): (n: nat)
    requires lo <= hi <= |times|
  {
    if lo == hi then 0 else CountAdmitted(times, limit, lo, hi - 1) + (if Admits(times, limit, hi - 1) then 1 else 0)
  }

  function Min(a: int, b: int): int { if a < b then a else b }

  function Max(a: int, b: int): int { if a < b then b else a }

  /** Requests of one window, from lo on: those before opener + Max are admitted. */
  lemma {:induction false} AdmittedOfWindow(times: seq<int>, limit: RateLimit, s: nat, lo: nat, hi: nat)
    requires NonDecreasing(times) && s <= lo <= hi <= |times| && limit.window >= 1
    requires forall i :: lo <= i < hi ==> Opener(times, limit.window, i) == s
    ensures CountAdmitted(times, limit, lo, hi) == Max(0, Min(hi, s + limit.max) - lo)
  {
    if lo < hi {
      AdmittedOfWindow(times, limit, s, lo, hi - 1);
      AdmittedIffEarly(times, limit, hi - 1);
    }
  }

  lemma {:induction false} OpenersAreLate(times: seq<int>, window: int, i: nat, j: nat)
    requires NonDecreasing(times) && i <= j < |times| && window >= 1
    ensures Opener(times, window, i) <= Opener(times, window, j)
    ensures Opener(times, window, j) == Opener(times, window, i) ||
            (i < Opener(times, window, j)
              && times[Opener(times, window, i)] + window <= times[Opener(times, window, j)])
    decreases j
  {
    if i < j {
      OpenersAreLate(times, window, i, j - 1);
    }
  }

  /** A window admits exactly the lesser of its requests and Max. */
  lemma WindowAdmitsMin(times: seq<int>, limit: RateLimit, s: nat, hi: nat)
    requires NonDecreasing(times) && s < hi <= |times| && limit.window >= 1
    requires forall i :: s <= i < hi ==> Opener(times, limit.window, i) == s
    ensures CountAdmitted(times, limit, s, hi) == Max(0, Min(hi - s, limit.max))
  {
    AdmittedOfWindow(times, limit, s, s, hi);
  }

  lemma {:induction false} CountSplits(times: seq<int>, limit: RateLimit, lo: nat, mid: nat, hi: nat)
    requires lo <= mid <= hi <= |times|
    ensures CountAdmitted(times, limit, lo, hi) ==
            CountAdmitted(times, limit, lo, mid) + CountAdmitted(times, limit, mid, hi)
    decreases hi
  {
    if mid < hi {
      CountSplits(times, limit, lo, mid, hi - 1);
    }
  }

  /** The requests lo, ..., hi - 1 that fall into a half-open interval of one window's
      length touch at most two windows, the first of which was opened earlier. */
  lemma {:induction false} IntervalTouchesTwo(times: seq<int>, window: int, a: int, lo: nat, hi: nat) returns (p: nat)
    requires NonDecreasing(times) && lo < hi <= |times| && window >= 1
    requires forall i :: lo <= i < hi ==> a <= times[i] < a + window
    ensures lo <= p <= hi
    ensures p > lo ==> Opener(times, window, lo) < lo
    ensures forall i :: lo <= i < p ==> Opener(times, window, i) == Opener(times, window, lo)
    ensures forall i :: p <= i < hi ==> Opener(times, window, i) == p
  {
    if Opener(times, window, lo) == lo {
      p := lo;
      forall i | p <= i < hi ensures Opener(times, window, i) == p {
        OpenersAreLate(times, window, lo, i);
      }
    } else {
      p := lo;
      while p < hi && Opener(times, window, p) == Opener(times, window, lo)
        invariant lo <= p <= hi
        invariant forall i :: lo <= i < p ==> Opener(times, window, i) == Opener(times, window, lo)
      {
        p := p + 1;
      }
      if p < hi {
        assert Opener(times, window, p) == p;
        forall i | p <= i < hi ensures Opener(times, window, i) == p {
          OpenersAreLate(times, window, p, i);
        }
      }
    }
  }

  /** No half-open interval of one window's length admits more than 2 * Max - 1
      requests: where two windows meet in it, the request that opened the earlier one
      lies outside. */
  lemma IntervalBound(times: seq<int>, limit: RateLimit, a: int, lo: nat, hi: nat)
    requires NonDecreasing(times) && lo <= hi <= |times| && limit.window >= 1
    requires forall i :: lo <= i < hi ==> a <= times[i] < a + limit.window
    ensures CountAdmitted(times, limit, lo, hi) <= Max(0, 2 * limit.max - 1)
  {
    if lo < hi {
      var p := IntervalTouchesTwo(times, limit.window, a, lo, hi);
      CountSplits(times, limit, lo, p, hi);
      AdmittedOfWindow(times, limit, Opener(times, limit.window, lo), lo, p);
      if p < hi {
        AdmittedOfWindow(times, limit, p, p, hi);
      }
    }
  }

  // ----- the bound is reached -----

  /** One request, Max - 1 just before its window closes, Max as soon as it has. */
  function Burst(max: nat, window: int): seq<int>
    requires max >= 1
  {
    [0] + seq(max - 1, _ => window - 1) + seq(max, _ => window)
  }

  lemma {:induction false} BurstOpeners(max: nat, window: int, i: nat)
    requires max >= 1 && window >= 2 && i < 2 * max
    ensures Opener(Burst(max, window), window, i) == if i < max then 0 else max
  {
    if i > 0 {
      BurstOpeners(max, window, i - 1);
    }
  }

  lemma BoundIsReached(max: nat, window: int, key: string)
    requires max >= 1 && window >= 2
    ensures var (times, limit) := (Burst(max, window), RateLimit(max, window, key));
            && NonDecreasing(times) && |times| == 2 * max
            && (forall i :: 1 <= i < 2 * max ==> window - 1 <= times[i] < window - 1 + window)
            && CountAdmitted(times, limit, 1, 2 * max) == 2 * max - 1
  {
    var (times, limit) := (Burst(max, window), RateLimit(max, window, key));
    forall i | 0 <= i < 2 * max ensures Opener(times, window, i) == if i < max then 0 else max {
      BurstOpeners(max, window, i);
    }
    AdmittedOfWindow(times, limit, 0, 1, max);
    AdmittedOfWindow(times, limit, max, max, 2 * max);
    CountSplits(times, limit, 1, max, 2 * max);
  }

  // ----- many clients -----

  /** A request to an endpoint, with the limit its limiter gives for it, if it has one. */
  datatype Request = Request(limit: Option<RateLimit>, name: string, ip: string, now: int)

  /** Limited requests with the same key given by their limiters share a counter; so do those
      without a key of one address to one endpoint, which amounts to the key name_address. */
  predicate Together(a: Request, b: Request) {
    && a.limit.Some? && b.limit.Some?
    && var (x, y) := (a.limit.value.key, b.limit.value.key);
       if x != "" && y != "" then x == y
       else if x != "" then x == b.name + "_" + b.ip
       else if y != "" then y == a.name + "_" + a.ip
       else a.name + "_" + a.ip == b.name + "_" + b.ip
  }

  /** The requests that share a counter with r, in order. */
  function Sharing(requests: seq<Request>, r: Request): seq<Request> {
    if requests == [] then []
    else
      var (front, last) := (Sharing(requests[..|requests| - 1], r), requests[|requests| - 1]);
      if Together(last, r) then front + [last] else front
  }

  /** A counter that has seen these requests and no other. */
  function CounterOf(requests: seq<Request>): Option<Counter> {
    if requests == [] then None
    else
      var (front, last) := (CounterOf(requests[..|requests| - 1]), requests[|requests| - 1]);
      if last.limit.None? then front else Some(Step(front, last.limit.value, last.now))
  }

  /** A limited request is admitted exactly when the requests that shared its counter before it,
      and no others, leave room for it. */
  predicate Fair(requests: seq<Request>, i: nat, admitted: bool)
    requires i < |requests|
  {
    var r := requests[i];
    admitted <==>
    (r.limit.Some? ==>
       Step(CounterOf(Sharing(requests[..i], r)), r.limit.value, r.now).count <= r.limit.value.max)
  }

  /** Each counter is what the requests that share it have left. */
  ghost predicate Counted(store: map<string, Counter>, requests: seq<Request>) {
    forall r: Request :: r.limit.Some? ==> CounterIs(store, requests, r)
  }

  predicate CounterIs(store: map<string, Counter>, requests: seq<Request>, r: Request)
    requires r.limit.Some?
  {
    At(store, KeyFor(r.limit.value, r.name, r.ip)) == CounterOf(Sharing(requests, r))
  }

  /** Two requests share a counter exactly when they get the same key. */
  lemma TogetherIsSameKey(a: Request, b: Request)
    requires a.limit.Some? && b.limit.Some?
    ensures Together(a, b) <==> KeyFor(a.limit.value, a.name, a.ip) == KeyFor(b.limit.value, b.name, b.ip)
  {}

  lemma NextCounted(store: map<string, Counter>, requests: seq<Request>, r: Request)
    requires Counted(store, requests) && r.limit.Some?
    ensures var key := KeyFor(r.limit.value, r.name, r.ip);
            Counted(store[key := Step(At(store, key), r.limit.value, r.now)], requests + [r])
  {
    var key := KeyFor(r.limit.value, r.name, r.ip);
    var after := store[key := Step(At(store, key), r.limit.value, r.now)];
    forall other: Request | other.limit.Some? ensures CounterIs(after, requests + [r], other) {
      assert CounterIs(store, requests, other) && CounterIs(store, requests, r);
      TogetherIsSameKey(r, other);
      SameSharing(requests, r, other);
      SharingGrows(requests, r, other);
    }
  }

  lemma SharingGrows(requests: seq<Request>, last: Request, r: Request)
    ensures var own := Sharing(requests, r);
            && Sharing(requests + [last], r) == (if Together(last, r) then own + [last] else own)
            && (last.limit.Some? ==> CounterOf(own + [last]) == Some(Step(CounterOf(own), last.limit.value, last.now)))
  {
    var own := Sharing(requests, r);
    assert (requests + [last])[..|requests|] == requests && (own + [last])[..|own|] == own;
  }

  lemma {:induction false} SameSharing(requests: seq<Request>, a: Request, b: Request)
    requires a.limit.Some? && b.limit.Some?
    ensures Together(a, b) ==> Sharing(requests, a) == Sharing(requests, b)
  {
    if Together(a, b) && requests != [] {
      var last := requests[|requests| - 1];
      SameSharing(requests[..|requests| - 1], a, b);
      if last.limit.Some? {
        TogetherIsSameKey(a, b);
        TogetherIsSameKey(last, a);
        TogetherIsSameKey(last, b);
      }
    }
  }

  lemma NextUnlimited(store: map<string, Counter>, requests: seq<Request>, r: Request)
    requires Counted(store, requests) && r.limit.None?
    ensures Counted(store, requests + [r])
  {
    forall other: Request | other.limit.Some? ensures CounterIs(store, requests + [r], other) {
      assert CounterIs(store, requests, other);
      SharingGrows(requests, r, other);
    }
  }

  /** Any number of clients, endpoints and limits, from an empty store. */
  method Serve(requests: seq<Request>) returns (admitted: seq<bool>)
    ensures |admitted| == |requests|
    ensures forall i :: 0 <= i < |requests| ==> Fair(requests, i, admitted[i])
  {
    var redis := new Redis();
    admitted := [];
    for i := 0 to |requests|
      invariant |admitted| == i && Counted(redis.store, requests[..i])
      invariant forall l :: 0 <= l < i ==> Fair(requests, l, admitted[l])
    {
      var ok := ServeNext(redis, requests, i);
      admitted := admitted + [ok];
    }
  }

  method ServeNext(redis: Redis, requests: seq<Request>, i: nat) returns (admitted: bool)
    requires i < |requests| && Counted(redis.store, requests[..i])
    modifies redis
    ensures Counted(redis.store, requests[..i + 1]) && Fair(requests, i, admitted)
  {
    var r := requests[i];
    assert requests[..i + 1] == requests[..i] + [r];
    if r.limit.Some? {
      assert CounterIs(redis.store, requests[..i], r);
      NextCounted(redis.store, requests[..i], r);
    } else {
      NextUnlimited(redis.store, requests[..i], r);
    }
    admitted := redis.CheckRateLimit(r.limit, r.name, r.ip, r.now);
  }

  // ----- one endpoint -----

  /** Requests of several addresses to one endpoint. */
  function Requests(limit: RateLimit, name: string, calls: seq<(string, int)>): seq<Request> {
    seq(|calls|, i requires 0 <= i < |calls| => Request(Some(limit), name, calls[i].0, calls[i].1))
  }

  /** When an address has called. */
  function TimesOf(calls: seq<(string, int)>, ip: string): seq<int> {
    if calls == [] then []
    else TimesOf(calls[..|calls| - 1], ip) + if calls[|calls| - 1].0 == ip then [calls[|calls| - 1].1] else []
  }

  function AllTimes(calls: seq<(string, int)>): seq<int> {
    seq(|calls|, i requires 0 <= i < |calls| => calls[i].1)
  }

  lemma {:induction false} OneCounter(limit: RateLimit, requests: seq<Request>, times: seq<int>)
    requires |requests| == |times|
    requires forall i :: 0 <= i < |times| ==> requests[i].limit == Some(limit) && requests[i].now == times[i]
    ensures CounterOf(requests) == Before(times, limit, |times|)
  {
    if times != [] {
      var end := |times| - 1;
      OneCounter(limit, requests[..end], times[..end]);
      BeforeOfFront(times, times[..end], limit, end);
    }
  }

  lemma {:induction false} BeforeOfFront(times: seq<int>, front: seq<int>, limit: RateLimit, i: nat)
    requires i <= |front| && front <= times
    ensures Before(times, limit, i) == Before(front, limit, i)
  {
    if i > 0 { BeforeOfFront(times, front, limit, i - 1); }
  }

  /** Without a key each address is counted by itself. */
  lemma {:induction false} OwnRequests(limit: RateLimit, name: string, calls: seq<(string, int)>, r: Request)
    requires limit.key == "" && r.limit == Some(limit) && r.name == name
    ensures var own := Sharing(Requests(limit, name, calls), r);
            && |own| == |TimesOf(calls, r.ip)|
            && forall i :: 0 <= i < |own| ==> own[i].limit == Some(limit) && own[i].now == TimesOf(calls, r.ip)[i]
  {
    if calls != [] {
      var (end, all) := (|calls| - 1, Requests(limit, name, calls));
      OwnRequests(limit, name, calls[..end], r);
      assert all[..end] == Requests(limit, name, calls[..end]);
      SameAddress(name, calls[end].0, r.ip);
    }
  }

  lemma SameAddress(name: string, ip: string, other: string)
    ensures name + "_" + ip == name + "_" + other <==> ip == other
  {
    if name + "_" + ip == name + "_" + other {
      assert ip == (name + "_" + ip)[|name| + 1..] == (name + "_" + other)[|name| + 1..] == other;
    }
  }

  /** With a key all addresses are counted together. */
  lemma {:induction false} AllRequests(limit: RateLimit, name: string, calls: seq<(string, int)>, r: Request)
    requires limit.key != "" && r.limit == Some(limit)
    ensures Sharing(Requests(limit, name, calls), r) == Requests(limit, name, calls)
  {
    if calls != [] {
      var (end, all) := (|calls| - 1, Requests(limit, name, calls));
      AllRequests(limit, name, calls[..end], r);
      assert all[..end] == Requests(limit, name, calls[..end]);
    }
  }

  /** An endpoint without a key admits a request exactly when the requests of the same address
      alone let it; with a key, exactly when those of all addresses together do. */
  method ServeEndpoint(limit: RateLimit, name: string, calls: seq<(string, int)>) returns (admitted: seq<bool>)
    ensures |admitted| == |calls|
    ensures limit.key == "" ==>
              forall i :: 0 <= i < |calls| ==>
                (admitted[i] <==> AdmitsLast(TimesOf(calls[..i], calls[i].0) + [calls[i].1], limit))
    ensures limit.key != "" ==>
              forall i :: 0 <= i < |calls| ==> (admitted[i] <==> AdmitsLast(AllTimes(calls[..i + 1]), limit))
  {
    var requests := Requests(limit, name, calls);
    admitted := Serve(requests);
    forall i | 0 <= i < |calls|
      ensures limit.key == "" ==> (admitted[i] <==> AdmitsLast(TimesOf(calls[..i], calls[i].0) + [calls[i].1], limit))
      ensures limit.key != "" ==> (admitted[i] <==> AdmitsLast(AllTimes(calls[..i + 1]), limit))
    {
      assert Fair(requests, i, admitted[i]);
      FairOfEndpoint(limit, name, calls, i, admitted[i]);
    }
  }

  predicate AdmitsLast(times: seq<int>, limit: RateLimit)
    requires times != []
  {
    Admits(times, limit, |times| - 1)
  }

  lemma FairOfEndpoint(limit: RateLimit, name: string, calls: seq<(string, int)>, i: nat, admitted: bool)
    requires i < |calls| && Fair(Requests(limit, name, calls), i, admitted)
    ensures limit.key == "" ==> (admitted <==> AdmitsLast(TimesOf(calls[..i], calls[i].0) + [calls[i].1], limit))
    ensures limit.key != "" ==> (admitted <==> AdmitsLast(AllTimes(calls[..i + 1]), limit))
  {
    var (all, front) := (Requests(limit, name, calls), calls[..i]);
    var r := all[i];
    assert all[..i] == Requests(limit, name, front);
    if limit.key == "" {
      OwnRequests(limit, name, front, r);
      LastOfTimes(limit, Sharing(all[..i], r), TimesOf(front, r.ip), r.now);
    } else {
      AllRequests(limit, name, front, r);
      LastOfTimes(limit, all[..i], AllTimes(front), r.now);
      assert AllTimes(calls[..i + 1]) == AllTimes(front) + [r.now];
    }
  }

  lemma LastOfTimes(limit: RateLimit, requests: seq<Request>, times: seq<int>, now: int)
    requires |requests| == |times|
    requires forall i :: 0 <= i < |times| ==> requests[i].limit == Some(limit) && requests[i].now == times[i]
    ensures Step(CounterOf(requests), limit, now).count <= limit.max <==> AdmitsLast(times + [now], limit)
  {
    OneCounter(limit, requests, times);
    BeforeOfFront(times + [now], times, limit, |times|);
  }

  // ----- counters of several endpoints -----

  /** As addresses have no underscore, requests without a key share a counter exactly when they
      come from one address to endpoints of one name. */
  lemma OneAddressOneEndpoint(a: Request, b: Request)
    requires a.limit.Some? && b.limit.Some? && a.limit.value.key == b.limit.value.key == ""
    requires '_' !in a.ip && '_' !in b.ip
    ensures Together(a, b) <==> a.name == b.name && a.ip == b.ip
  {
    var (x, y) := (a.name + "_" + a.ip, b.name + "_" + b.ip);
    if x == y {
      assert x[|a.name|] == '_' && y[|b.name|] == '_';
      assert a.name == x[..|a.name|] == b.name;
      SameAddress(a.name, a.ip, b.ip);
    }
  }

  /** A key that a limiter gives can be another endpoint's name and address. */
  lemma KeysMayMeet(limit: RateLimit, name: string, ip: string, now: int, other: string, from: string)
    requires limit.key == ""
    ensures var given := limit.(key := name + "_" + ip);
            Together(Request(Some(limit), name, ip, now), Request(Some(given), other, from, now))
  {
    assert name + "_" + ip != "";
  }
}
