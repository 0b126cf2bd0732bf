/** consumeDcrRateLimit (src/core-auth.js): the fixed-window limiter in front of client registration. Times are
    milliseconds; one bucket per client address. */
module RateLimiter {
  import opened Ordering

  type Address = string

  datatype Bucket = Bucket(start: int, count: nat)
  datatype Verdict = Admitted(count: nat, start: int) | SlowDown(retryAfter: int)

  /** The three environment settings; None stands for absent, blank or not a finite number. */
  datatype Settings = Settings(max: Option<real>, maxUnknown: Option<real>, windowSeconds: Option<real>)

  const UNKNOWN: Address := "unknown"

  function EnvPositiveInt(raw: Option<real>, fallback: int): (n: int)
    requires fallback >= 1
    ensures n >= 1
  {
    if raw.None? || raw.value < 1.0 then fallback else raw.value.Floor
  }

  function Max(e: Settings, ip: Address): (n: int)
    ensures n >= 1
  {
    if ip == UNKNOWN then EnvPositiveInt(e.maxUnknown, 2) else EnvPositiveInt(e.max, 5)
  }

  function Window(e: Settings): (ms: int)
    ensures ms >= 1000
  {
    EnvPositiveInt(e.windowSeconds, 3600) * 1000
  }

  /** A setting below one or absent leaves the default: five registrations an hour from an address, two when it is not
      known; any other counts as its whole part. */
  lemma LimitsMeaning(e: Settings, ip: Address)
    ensures var given := if ip == "unknown" then e.maxUnknown else e.max;
      if given.Some? && given.value >= 1.0 then Max(e, ip) as real <= given.value < Max(e, ip) as real + 1.0
      else Max(e, ip) == if ip == "unknown" then 2 else 5
    ensures var given := e.windowSeconds;
      if given.Some? && given.value >= 1.0 then
        Window(e) % 1000 == 0 && (Window(e) / 1000) as real <= given.value < (Window(e) / 1000) as real + 1.0
      else Window(e) == 60 * 60 * 1000
  {
  }

  function CeilDiv(a: int, b: int): int
    requires b > 0
  {
    -((-a) / b)
  }

  function Lookup(buckets: map<Address, Bucket>, ip: Address): Option<Bucket> {
    if ip in buckets then Some(buckets[ip]) else None
  }

  /** The bucket a request at `now` is counted in. */
  function Current(b: Option<Bucket>, now: int, window: int): Bucket {
    if b.Some? && now - b.value.start < window then b.value else Bucket(now, 0)
  }

  function Decide(b: Option<Bucket>, now: int, max: int, window: int): Verdict {
    var c := Current(b, now, window);
    if c.count >= max then
      var wait := CeilDiv(c.start + window - now, 1000);
      SlowDown(if wait < 1 then 1 else wait)
    else Admitted(c.count + 1, c.start)
  }

  function Consume(buckets: map<Address, Bucket>, e: Settings, ip: Address, now: int): (map<Address, Bucket>, Verdict) {
    var v := Decide(Lookup(buckets, ip), now, Max(e, ip), Window(e));
    (if v.Admitted? then buckets[ip := Bucket(v.start, v.count)] else buckets, v)
  }

  class RateBuckets {
    const settings: Settings
    var buckets: map<Address, Bucket>

    constructor (e: Settings)
      ensures settings == e && buckets == map[]
    {
      settings := e;
      buckets := map[];
    }

    method ConsumeRateLimit(ip: Address, now: int) returns (v: Verdict)
      modifies this
      ensures (buckets, v) == Consume(old(buckets), settings, ip, now)
    {
      var max := Max(settings, ip);
      var window := Window(settings);
      var windowStart: Option<int>, count := None, 0;
      if ip in buckets && now - buckets[ip].start < window {
        windowStart := Some(buckets[ip].start);
        count := buckets[ip].count;
      }
      if windowStart.None? {
        windowStart := Some(now);
        count := 0;
      }
      if count >= max {
        var retryAfter := CeilDiv(windowStart.value + window - now, 1000);
        return SlowDown(if retryAfter < 1 then 1 else retryAfter);
      }
      buckets := buckets[ip := Bucket(windowStart.value, count + 1)];
      v := Admitted(count + 1, windowStart.value);
    }
  }

  /*** Runs ***/

  datatype Request = Request(ip: Address, now: int)

  ghost predicate Timely(clock: int, requests: seq<Request>)
    decreases |requests|
  {
    requests == [] || (clock <= requests[0].now && Timely(requests[0].now, requests[1..]))
  }

  function Run(buckets: map<Address, Bucket>, e: Settings, requests: seq<Request>): map<Address, Bucket>
    decreases |requests|
  {
    if requests == [] then buckets
    else Run(Consume(buckets, e, requests[0].ip, requests[0].now).0, e, requests[1..])
  }

  /** How many requests of a run the limiter answers so that p holds. */
  function Count(buckets: map<Address, Bucket>, e: Settings, requests: seq<Request>, p: (Request, Verdict) -> bool): nat
    decreases |requests|
  {
    if requests == [] then 0
    else
      var (next, v) := Consume(buckets, e, requests[0].ip, requests[0].now);
      (if p(requests[0], v) then 1 else 0) + Count(next, e, requests[1..], p)
  }

  /** Admissions of one address that fall between two instants, both included. */
  function AdmittedBetween(ip: Address, from: int, to: int): (Request, Verdict) -> bool {
    (q: Request, v: Verdict) => q.ip == ip && v.Admitted? && from <= q.now <= to
  }

  /** Admissions of one address counted in the fixed window that began at `start`. */
  function AdmittedInWindow(ip: Address, start: int): (Request, Verdict) -> bool {
    (q: Request, v: Verdict) => q.ip == ip && v.Admitted? && v.start == start
  }

  function Free(max: int, count: nat): nat { if count < max then max - count else 0 }

  /** How many more admissions can fall in [t, t + window] from a bucket seen at `clock`. */
  function Room(b: Option<Bucket>, clock: int, t: int, max: nat, window: int): nat {
    if clock < t || b.None? || b.value.start + window <= t then 2 * max
    else if b.value.start <= t then Free(max, b.value.count) + max
    else Free(max, b.value.count)
  }

  lemma RoomStep(b: Option<Bucket>, clock: int, now: int, t: int, max: nat, window: int)
    requires clock <= now && max >= 1 && window >= 1
    ensures var v := Decide(b, now, max, window);
      (if v.Admitted? && t <= now <= t + window then 1 else 0)
      + (if now <= t + window then Room(if v.Admitted? then Some(Bucket(v.start, v.count)) else b, now, t, max, window)
         else 0)
      <= Room(b, clock, t, max, window)
  {
  }

  lemma {:induction false} NoneAfter(buckets: map<Address, Bucket>, e: Settings, requests: seq<Request>, ip: Address,
                                     clock: int, from: int, to: int)
    requires Timely(clock, requests) && to < clock
    ensures Count(buckets, e, requests, AdmittedBetween(ip, from, to)) == 0
    decreases |requests|
  {
    if requests != [] {
      NoneAfter(Consume(buckets, e, requests[0].ip, requests[0].now).0, e, requests[1..], ip, requests[0].now,
                from, to);
    }
  }

  lemma {:induction false} SlidingRoom(buckets: map<Address, Bucket>, e: Settings, requests: seq<Request>, ip: Address,
                                       clock: int, t: int)
    requires Timely(clock, requests)
    ensures Count(buckets, e, requests, AdmittedBetween(ip, t, t + Window(e)))
            <= Room(Lookup(buckets, ip), clock, t, Max(e, ip), Window(e))
    decreases |requests|
  {
    if requests != [] {
      var q := requests[0];
      var (next, v) := Consume(buckets, e, q.ip, q.now);
      RoomStep(Lookup(buckets, ip), clock, q.now, t, Max(e, ip), Window(e));
      if q.now <= t + Window(e) {
        SlidingRoom(next, e, requests[1..], ip, q.now, t);
      } else {
        NoneAfter(next, e, requests[1..], ip, q.now, t, t + Window(e));
      }
    }
  }

  /** Whatever the tables held before, no closed interval of the window's length admits more than twice the
      maximum from one address. */
  lemma SlidingBound(buckets: map<Address, Bucket>, e: Settings, requests: seq<Request>, ip: Address, clock: int,
                     t: int)
    requires Timely(clock, requests)
    ensures Count(buckets, e, requests, AdmittedBetween(ip, t, t + Window(e))) <= 2 * Max(e, ip)
  {
    SlidingRoom(buckets, e, requests, ip, clock, t);
  }

  /** Each fixed window admits at most the maximum, less what it had already counted. */
  lemma {:induction false} WindowBound(buckets: map<Address, Bucket>, e: Settings, requests: seq<Request>, ip: Address,
                                       clock: int, start: int)
    requires Timely(clock, requests)
    ensures var b := Lookup(buckets, ip);
      Count(buckets, e, requests, AdmittedInWindow(ip, start))
      <= if b.None? || b.value.start < start then Max(e, ip)
         else if b.value.start == start then Free(Max(e, ip), b.value.count)
         else 0
    decreases |requests|
  {
    if requests != [] {
      var q := requests[0];
      var (next, v) := Consume(buckets, e, q.ip, q.now);
      WindowBound(next, e, requests[1..], ip, q.now, start);
    }
  }

  /** A request at `now` sees every window it starts begin at its own instant and every other admission fall inside
      the window it is counted in; the bucket of another address is not touched. */
  lemma ConsumeMeaning(buckets: map<Address, Bucket>, e: Settings, ip: Address, now: int)
    ensures var (next, v) := Consume(buckets, e, ip, now);
      && (forall other :: other != ip ==> Lookup(next, other) == Lookup(buckets, other))
      && (v.Admitted? ==>
            next[ip] == Bucket(v.start, v.count) && 1 <= v.count <= Max(e, ip) && now < v.start + Window(e))
      && (v.SlowDown? ==> next == buckets && ip in buckets && buckets[ip].count >= Max(e, ip)
                          && now < buckets[ip].start + Window(e))
  {
  }

  lemma {:induction false} OthersOnly(buckets: map<Address, Bucket>, e: Settings, requests: seq<Request>, ip: Address)
    requires forall i :: 0 <= i < |requests| ==> requests[i].ip != ip
    ensures Lookup(Run(buckets, e, requests), ip) == Lookup(buckets, ip)
    decreases |requests|
  {
    if requests != [] {
      OthersOnly(Consume(buckets, e, requests[0].ip, requests[0].now).0, e, requests[1..], ip);
    }
  }

  lemma CeilDivBounds(a: int, b: int)
    requires b > 0
    ensures b * (CeilDiv(a, b) - 1) < a <= b * CeilDiv(a, b)
  {
    var q := (-a) / b;
    assert -a == b * q + (-a) % b;
  }

  /** A refused address that stays idle, whatever others do, is admitted exactly when its window has ended; that
      instant is at most retry_after seconds away and more than retry_after - 1. */
  lemma RetryAfterWaits(buckets: map<Address, Bucket>, e: Settings, ip: Address, now: int, others: seq<Request>,
                        at: int)
    requires Consume(buckets, e, ip, now).1.SlowDown? && now <= at
    requires forall i :: 0 <= i < |others| ==> others[i].ip != ip
    ensures var (refused, v) := Consume(buckets, e, ip, now);
      var end := buckets[ip].start + Window(e);
      && (Consume(Run(refused, e, others), e, ip, at).1.Admitted? <==> end <= at)
      && now + 1000 * (v.retryAfter - 1) < end <= now + 1000 * v.retryAfter
      && v.retryAfter >= 1
  {
    ConsumeMeaning(buckets, e, ip, now);
    OthersOnly(buckets, e, others, ip);
    CeilDivBounds(buckets[ip].start + Window(e) - now, 1000);
  }

  /*** The bound is attained ***/

  function Burst(ip: Address, now: int, n: nat): seq<Request> {
    if n == 0 then [] else [Request(ip, now)] + Burst(ip, now, n - 1)
  }

  lemma CountCons(buckets: map<Address, Bucket>, e: Settings, q: Request, rest: seq<Request>,
                  p: (Request, Verdict) -> bool)
    ensures var (next, v) := Consume(buckets, e, q.ip, q.now);
      && Count(buckets, e, [q] + rest, p) == (if p(q, v) then 1 else 0) + Count(next, e, rest, p)
      && Run(buckets, e, [q] + rest) == Run(next, e, rest)
  {
    Cons(q, rest);
  }

  /** A request at the window's first instant, below the maximum, is admitted and counted. */
  lemma AdmitOne(buckets: map<Address, Bucket>, e: Settings, ip: Address, now: int)
    requires Current(Lookup(buckets, ip), now, Window(e)).start == now
    requires Current(Lookup(buckets, ip), now, Window(e)).count < Max(e, ip)
    ensures var (next, v) := Consume(buckets, e, ip, now);
      var bucket := Bucket(now, Current(Lookup(buckets, ip), now, Window(e)).count + 1);
      v.Admitted? && Lookup(next, ip) == Some(bucket) && Current(Lookup(next, ip), now, Window(e)) == bucket
  {
  }

  lemma {:induction false} BurstAdmitted(buckets: map<Address, Bucket>, e: Settings, ip: Address, now: int, n: nat,
                                         rest: seq<Request>, from: int, to: int)
    requires from <= now <= to && Current(Lookup(buckets, ip), now, Window(e)).start == now
    requires Current(Lookup(buckets, ip), now, Window(e)).count + n <= Max(e, ip)
    ensures Count(buckets, e, Burst(ip, now, n) + rest, AdmittedBetween(ip, from, to))
            == n + Count(Run(buckets, e, Burst(ip, now, n)), e, rest, AdmittedBetween(ip, from, to))
    ensures n > 0 ==> Lookup(Run(buckets, e, Burst(ip, now, n)), ip)
                      == Some(Bucket(now, Current(Lookup(buckets, ip), now, Window(e)).count + n))
    decreases n
  {
    var burst := Burst(ip, now, n);
    if n == 0 {
      assert burst + rest == rest;
    } else {
      var next, q, others := Consume(buckets, e, ip, now).0, Request(ip, now), Burst(ip, now, n - 1);
      AdmitOne(buckets, e, ip, now);
      BurstAdmitted(next, e, ip, now, n - 1, rest, from, to);
      Assoc([q], others, rest);
      CountCons(buckets, e, q, others + rest, AdmittedBetween(ip, from, to));
      CountCons(buckets, e, q, others, AdmittedBetween(ip, from, to));
    }
  }

  /** From empty tables, max requests at one instant and max more exactly one window later are all admitted. */
  lemma SlidingTight(e: Settings, ip: Address, t: int)
    ensures var max := Max(e, ip);
      Count(map[], e, Burst(ip, t, max) + Burst(ip, t + Window(e), max), AdmittedBetween(ip, t, t + Window(e)))
        == 2 * max
  {
    var max, to := Max(e, ip), t + Window(e);
    var second := Burst(ip, to, max);
    BurstAdmitted(map[], e, ip, t, max, second, t, to);
    var half := Run(map[], e, Burst(ip, t, max));
    BurstAdmitted(half, e, ip, to, max, [], t, to);
    assert second + [] == second;
  }
}
