/** The fixed-window rate limiter: one counter per key, expiring a window after its first hit. */
module RateLimiter {

  datatype Bucket = Absent | Bucket(count: nat, expiresAt: int)

  datatype RateLimitKey = RateLimitKey(scope: string, subject: string)

  datatype Decision = Decision(allowed: bool, remaining: int, limit: int, resetAtMs: int, unavailable: bool)

  /** What became of one call to the store: not reached, run with its answer lost, or answered. */
  datatype Reply = NotReached | Lost | Answered

  /** The window length, and whether a key still lives at the very instant it expires. */
  datatype Window = Window(millis: int, keepsLastInstant: bool)

  function RateKey(environment: string, key: RateLimitKey): string {
    "rl:" + environment + ":" + key.scope + ":" + key.subject
  }

  predicate Live(b: Bucket, now: int, w: Window) {
    b.Bucket? && (now < b.expiresAt || (w.keepsLastInstant && now == b.expiresAt))
  }

  function Count(b: Bucket, now: int, w: Window): nat {
    if Live(b, now, w) then b.count else 0
  }

  /** The script: increment, and set the expiry on the first hit; a window that is not positive deletes the key. */
  function Increment(b: Bucket, now: int, w: Window): Bucket {
    if Live(b, now, w) then b.(count := b.count + 1)
    else if w.millis <= 0 then Absent
    else Bucket(1, now + w.millis)
  }

  function CeilDiv(a: int, b: int): int
    requires b > 0
  {
    -(-a / b)
  }

  function ResetAtMs(now: int, windowMs: int): int
    requires windowMs > 0
  {
    CeilDiv(now + 1, windowMs) * windowMs
  }

  function Max(a: int, b: int): int {
    if a >= b then a else b
  }

  class RedisRateLimiter {
    const environment: string
    const window: Window
    var buckets: map<string, Bucket>

    constructor (environment: string, window: Window)
      ensures this.environment == environment && this.window == window && buckets == map[]
    {
      this.environment := environment;
      this.window := window;
      buckets := map[];
    }

    function BucketOf(key: RateLimitKey): Bucket
      reads this
    {
      var k := RateKey(environment, key);
      if k in buckets then buckets[k] else Absent
    }

    /** One call: the script runs atomically at `now` if it is reached at all. */
    method Consume(key: RateLimitKey, limit: int, now: int, reply: Reply) returns (d: Decision)
      requires window.millis > 0
      modifies this
      ensures BucketOf(key)
              == (if reply.NotReached? then old(BucketOf(key)) else Increment(old(BucketOf(key)), now, window))
      ensures !reply.NotReached? ==>
                var before := old(BucketOf(key));
                BucketOf(key) ==
                  if before.Bucket? && (now < before.expiresAt || (window.keepsLastInstant && now == before.expiresAt))
                  then Bucket(before.count + 1, before.expiresAt) else Bucket(1, now + window.millis)
      ensures reply.NotReached? ==> BucketOf(key) == old(BucketOf(key))
      ensures forall other :: RateKey(environment, other) != RateKey(environment, key) ==>
                BucketOf(other) == old(BucketOf(other))
      ensures d.allowed <==> Admits(old(BucketOf(key)), now, window, limit, reply)
      ensures d.allowed <==> reply.Answered? && BucketOf(key).Bucket? && BucketOf(key).count <= limit
      ensures d.unavailable <==> !reply.Answered?
      ensures d.limit == limit && 0 <= d.remaining <= Max(0, limit)
      ensures reply.Answered? ==> d.remaining == Max(0, limit - BucketOf(key).count)
      ensures now < d.resetAtMs <= now + window.millis && d.resetAtMs % window.millis == 0
    {
      ResetIsNextBoundary(now, window.millis);
      var k := RateKey(environment, key);
      var bucket := if k in buckets then buckets[k] else Absent;
      if reply.NotReached? {
        return Decision(false, 0, limit, ResetAtMs(now, window.millis), true);
      }
      var current := Count(bucket, now, window) + 1;
      buckets := buckets[k := Increment(bucket, now, window)];
      if reply.Lost? {
        return Decision(false, 0, limit, ResetAtMs(now, window.millis), true);
      }
      d := Decision(current <= limit, Max(0, limit - current), limit, ResetAtMs(now, window.millis), false);
    }
  }

  predicate Admits(b: Bucket, now: int, w: Window, limit: int, reply: Reply) {
    reply.Answered? && Count(b, now, w) + 1 <= limit
  }

  /** The reported reset is the next whole-window boundary after now. */
  lemma ResetIsNextBoundary(now: int, windowMs: int)
    requires windowMs > 0
    ensures now < ResetAtMs(now, windowMs) <= now + windowMs
    ensures ResetAtMs(now, windowMs) % windowMs == 0
  {
    var q, r := -(now + 1) / windowMs, -(now + 1) % windowMs;
    assert -(now + 1) == q * windowMs + r;
    assert (-q) * windowMs == -(q * windowMs);
    MultipleHasNoRest(-q, windowMs);
  }

  lemma MultipleHasNoRest(q: int, m: int)
    requires m > 0
    ensures (q * m) % m == 0
  {
    var p := q * m;
    var k, r := p / m, p % m;
    assert p == k * m + r;
    assert (q - k) * m == r;
    if q - k >= 1 { Grows(1, q - k, m); }
    if q - k <= -1 { Grows(q - k, -1, m); }
  }

  lemma Grows(a: int, b: int, m: int)
    requires a <= b && m > 0
    ensures a * m <= b * m
  {
  }

  /**
   * The reported reset is when a bucket opened now really expires exactly if it opens on a boundary; otherwise
   * it is earlier.
   */
  lemma ResetIsExpiryOnlyOnBoundary(now: int, w: Window)
    requires w.millis > 0
    ensures Increment(Absent, now, w).Bucket?
    ensures ResetAtMs(now, w.millis) <= Increment(Absent, now, w).expiresAt
    ensures ResetAtMs(now, w.millis) == Increment(Absent, now, w).expiresAt <==> now % w.millis == 0
  {
    ResetIsNextBoundary(now, w.millis);
    var m := w.millis;
    var k, r := now / m, now % m;
    assert now == k * m + r;
    assert -(now + 1) == (-k - 1) * m + (m - r - 1);
    QuotientIs(-(now + 1), m, -k - 1, m - r - 1);
    assert ResetAtMs(now, m) == (k + 1) * m == k * m + m;
  }

  lemma QuotientIs(a: int, m: int, q: int, r: int)
    requires m > 0 && a == q * m + r && 0 <= r < m
    ensures a / m == q
  {
    var k, s := a / m, a % m;
    assert a == k * m + s;
    assert (q - k) * m == s - r;
    if q - k >= 1 { Grows(1, q - k, m); }
    if q - k <= -1 { Grows(q - k, -1, m); }
  }

  // ----- whole runs on one key -----

  datatype Event = Event(at: int, reply: Reply)

  /** Events in the order the store runs them, so in the order of its clock. */
  predicate InOrder(events: seq<Event>) {
    forall i, j :: 0 <= i < j < |events| ==> events[i].at <= events[j].at
  }

  function After(b: Bucket, e: Event, w: Window): Bucket {
    if e.reply.NotReached? then b else Increment(b, e.at, w)
  }

  /** How many of `events`, starting from bucket `b`, are admitted at an instant of [lo, hi). */
  function Admitted(events: seq<Event>, b: Bucket, w: Window, limit: nat, lo: int, hi: int): nat {
    if events == [] then 0
    else
      var e := events[0];
      (if lo <= e.at < hi && Admits(b, e.at, w, limit, e.reply) then 1 else 0)
      + Admitted(events[1..], After(b, e, w), w, limit, lo, hi)
  }

  /** What remains admissible in [lo, lo + window) from bucket `b` when the next event is at `now`. */
  function Budget(b: Bucket, now: int, w: Window, limit: nat, lo: int): nat {
    if now >= lo + w.millis then 0
    else if Live(b, now, w) then
      var left := if b.count <= limit then limit - b.count else 0;
      if b.expiresAt < lo then TwoBuckets(limit)
      else if b.expiresAt < lo + w.millis then left + limit
      else left
    else if now >= lo then limit
    else TwoBuckets(limit)
  }

  /** A bucket opened before the interval has spent one unit on opening; the next one may admit its whole limit. */
  function TwoBuckets(limit: nat): nat {
    if limit == 0 then 0 else 2 * limit - 1
  }

  lemma BudgetStep(b: Bucket, e: Event, next: int, w: Window, limit: nat, lo: int)
    requires w.millis > 0 && e.at <= next
    requires b.Bucket? ==> b.count >= 1
    ensures (if lo <= e.at < lo + w.millis && Admits(b, e.at, w, limit, e.reply) then 1 else 0)
            + Budget(After(b, e, w), next, w, limit, lo) <= Budget(b, e.at, w, limit, lo)
  {
  }

  lemma {:induction false} AdmittedWithinBudget(events: seq<Event>, b: Bucket, w: Window, limit: nat, lo: int)
    requires w.millis > 0 && InOrder(events) && events != []
    requires b.Bucket? ==> b.count >= 1
    ensures Admitted(events, b, w, limit, lo, lo + w.millis) <= Budget(b, events[0].at, w, limit, lo)
    decreases |events|
  {
    var e, rest := events[0], events[1..];
    if rest == [] {
      BudgetStep(b, e, e.at, w, limit, lo);
    } else {
      AdmittedWithinBudget(rest, After(b, e, w), w, limit, lo);
      BudgetStep(b, e, rest[0].at, w, limit, lo);
    }
  }

  /** Every half-open interval as long as the window admits less than twice the limit, whatever the run. */
  lemma IntervalBound(events: seq<Event>, w: Window, limit: nat, lo: int)
    requires w.millis > 0 && InOrder(events)
    ensures Admitted(events, Absent, w, limit, lo, lo + w.millis) <= TwoBuckets(limit)
  {
    if events != [] {
      AdmittedWithinBudget(events, Absent, w, limit, lo);
    }
  }

  /** The window a fresh hit opens admits at most the limit until it expires. */
  lemma BucketBound(events: seq<Event>, b: Bucket, w: Window, limit: nat)
    requires w.millis > 0 && InOrder(events) && events != []
    requires b.Bucket? ==> b.count >= 1
    requires !Live(b, events[0].at, w)
    ensures Admitted(events, b, w, limit, events[0].at, events[0].at + w.millis) <= limit
  {
    AdmittedWithinBudget(events, b, w, limit, events[0].at);
  }

  /** Within one live bucket answered calls are admitted while the count allows and only then. */
  lemma {:induction false} BucketAdmitsExactly(events: seq<Event>, b: Bucket, w: Window, limit: nat, lo: int)
    requires InOrder(events) && b.Bucket?
    requires forall e <- events :: e.reply.Answered? && lo <= e.at < b.expiresAt
    ensures Admitted(events, b, w, limit, lo, b.expiresAt)
         == if b.count >= limit then 0 else if |events| <= limit - b.count then |events| else limit - b.count
    decreases |events|
  {
    if events != [] {
      var rest := events[1..];
      forall e | e in rest ensures e.reply.Answered? && lo <= e.at < b.expiresAt {
        assert e in events;
      }
      assert events[0] in events;
      BucketAdmitsExactly(rest, After(b, events[0], w), w, limit, lo);
    }
  }

  function Burst(at: int, n: nat): seq<Event> {
    seq(n, _ => Event(at, Answered))
  }

  /** A burst a live bucket has room for is admitted whole. */
  lemma {:induction false} BurstIsAdmitted(at: int, n: nat, rest: seq<Event>, b: Bucket, w: Window, limit: nat, lo: int,
                                           hi: int)
    requires Live(b, at, w) && b.count + n <= limit && lo <= at < hi
    ensures Admitted(Burst(at, n) + rest, b, w, limit, lo, hi)
         == n + Admitted(rest, b.(count := b.count + n), w, limit, lo, hi)
    decreases n
  {
    if n == 0 {
      assert Burst(at, n) + rest == rest;
    } else {
      assert (Burst(at, n) + rest)[1..] == Burst(at, n - 1) + rest;
      BurstIsAdmitted(at, n - 1, rest, b.(count := b.count + 1), w, limit, lo, hi);
    }
  }

  /** The last instant at which a bucket opened at 0 lives. */
  function LastInstant(w: Window): int {
    if w.keepsLastInstant then w.millis else w.millis - 1
  }

  /** A bucket opened at 0, filled at its last instant, and the next one opened and filled right after. */
  function TightRun(w: Window, limit: nat): seq<Event>
    requires limit >= 1
  {
    [Event(0, Answered)] + (Burst(LastInstant(w), limit - 1) + Burst(LastInstant(w) + 1, limit))
  }

  lemma SecondBucketIsFull(w: Window, limit: nat, b: Bucket, lo: int, hi: int)
    requires limit >= 1 && w.millis > 0 && lo <= LastInstant(w) + 1 < hi && !Live(b, LastInstant(w) + 1, w)
    ensures Admitted(Burst(LastInstant(w) + 1, limit), b, w, limit, lo, hi) == limit
  {
    var at := LastInstant(w) + 1;
    assert Burst(at, limit)[1..] == Burst(at, limit - 1) + [];
    BurstIsAdmitted(at, limit - 1, [], Bucket(1, at + w.millis), w, limit, lo, hi);
  }

  /** Every limit's bound is reached, under every window longer than one instant. */
  lemma IntervalBoundIsTight(w: Window, limit: nat)
    requires w.millis >= 2 && limit >= 1
    ensures InOrder(TightRun(w, limit))
    ensures Admitted(TightRun(w, limit), Absent, w, limit, LastInstant(w), LastInstant(w) + w.millis)
            == TwoBuckets(limit)
  {
    var last, hi := LastInstant(w), LastInstant(w) + w.millis;
    var first, second := Burst(last, limit - 1), Burst(last + 1, limit);
    assert TightRun(w, limit)[1..] == first + second;
    BurstIsAdmitted(last, limit - 1, second, Bucket(1, w.millis), w, limit, last, hi);
    SecondBucketIsFull(w, limit, Bucket(limit, w.millis), last, hi);
  }

  // ----- keys -----

  predicate HasNoColon(s: string) {
    forall i :: 0 <= i < |s| ==> s[i] != ':'
  }

  lemma ColonNotEarlier(a: string, x: string, b: string, y: string)
    requires HasNoColon(b) && a + ":" + x == b + ":" + y
    ensures |b| <= |a|
  {
    var s := a + ":" + x;
    assert s[|a|] == ':';
    assert forall i :: 0 <= i < |b| ==> s[i] == b[i];
  }

  lemma FirstColon(a: string, x: string, b: string, y: string)
    requires HasNoColon(a) && HasNoColon(b)
    requires a + ":" + x == b + ":" + y
    ensures a == b && x == y
  {
    ColonNotEarlier(a, x, b, y);
    ColonNotEarlier(b, y, a, x);
    var s := a + ":" + x;
    assert s[..|a|] == a && s[..|b|] == b;
    assert s[|a| + 1..] == x && s[|b| + 1..] == y;
  }

  /** Buckets are separate for different keys as long as scopes hold no colon, and for different environments too. */
  lemma KeysAreSeparate(environment: string, a: RateLimitKey, other: string, b: RateLimitKey)
    requires HasNoColon(a.scope) && HasNoColon(b.scope)
    requires environment == other || (HasNoColon(environment) && HasNoColon(other))
    requires RateKey(environment, a) == RateKey(other, b)
    ensures a == b && environment == other
  {
    var x, y := a.scope + ":" + a.subject, b.scope + ":" + b.subject;
    KeyAfterPrefix(environment, a);
    KeyAfterPrefix(other, b);
    if environment != other {
      FirstColon(environment, x, other, y);
    } else {
      assert (environment + ":" + x)[|environment| + 1..] == x && (other + ":" + y)[|other| + 1..] == y;
    }
    FirstColon(a.scope, a.subject, b.scope, b.subject);
  }

  lemma KeyAfterPrefix(environment: string, key: RateLimitKey)
    ensures |RateKey(environment, key)| >= 3
    ensures RateKey(environment, key)[3..] == environment + ":" + (key.scope + ":" + key.subject)
  {
    assert RateKey(environment, key) == "rl:" + (environment + ":" + (key.scope + ":" + key.subject));
  }
}
