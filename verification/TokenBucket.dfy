/**
 * The shared token bucket that limits call starts (src/map-with-concurrency.ts, 35-64).
 *
 * One turn of the takeToken loop is atomic: a worker reads the clock, refills,
 * and either takes a token or goes to sleep. Any number of workers take turns
 * in any order. Clock readings are milliseconds.
 */
module TokenBuckets {
  datatype Bucket = Bucket(tokens: real, capacity: real, rate: real, last: int)

  function Create(requestsPerSecond: real, now: int): Bucket {
    var capacity := if requestsPerSecond < 1.0 then 1.0 else requestsPerSecond;
    Bucket(capacity, capacity, requestsPerSecond, now)
  }

  /** Tokens earned in a span of milliseconds. */
  function Earned(rate: real, span: int): real {
    (span as real / 1000.0) * rate
  }

  function Refill(b: Bucket, now: int): Bucket {
    var sum := b.tokens + Earned(b.rate, now - b.last);
    b.(tokens := if b.capacity < sum then b.capacity else sum, last := now)
  }

  predicate Grants(b: Bucket, now: int) {
    Refill(b, now).tokens >= 1.0
  }

  function Attempt(b: Bucket, now: int): Bucket {
    var r := Refill(b, now);
    if r.tokens >= 1.0 then r.(tokens := r.tokens - 1.0) else r
  }

  /** How long a refused worker sleeps, in milliseconds. */
  function WaitMs(b: Bucket): real
    requires b.rate != 0.0
  {
    (1.0 - b.tokens) / b.rate * 1000.0
  }

  ghost predicate Good(b: Bucket) {
    b.rate > 0.0 && b.capacity >= 1.0 && 0.0 <= b.tokens <= b.capacity
  }

  ghost predicate Ordered(times: seq<int>, from: int) {
    && (forall i :: 0 <= i < |times| ==> from <= times[i])
    && (forall i, j :: 0 <= i <= j < |times| ==> times[i] <= times[j])
  }

  /** The bucket after attempts at these times. */
  function After(b: Bucket, times: seq<int>): Bucket
    decreases |times|
  {
    if times == [] then b else After(Attempt(b, times[0]), times[1..])
  }

  /** How many attempts at times within [a, z] are granted. */
  function GrantsWithin(b: Bucket, times: seq<int>, a: int, z: int): nat
    decreases |times|
  {
    if times == [] then 0
    else
      (if a <= times[0] <= z && Grants(b, times[0]) then 1 else 0)
      + GrantsWithin(Attempt(b, times[0]), times[1..], a, z)
  }

  lemma EarnedSplits(rate: real, x: int, y: int)
    ensures Earned(rate, x + y) == Earned(rate, x) + Earned(rate, y)
  {
  }

  lemma EarnedGrows(rate: real, x: int, y: int)
    requires rate > 0.0 && x <= y
    ensures Earned(rate, x) <= Earned(rate, y)
  {
    EarnedSplits(rate, x, y - x);
  }

  lemma AttemptGood(b: Bucket, now: int)
    requires Good(b) && b.last <= now
    ensures Good(Attempt(b, now)) && Attempt(b, now).last == now
    ensures Attempt(b, now).capacity == b.capacity && Attempt(b, now).rate == b.rate
    ensures Attempt(b, now).tokens <= b.tokens + Earned(b.rate, now - b.last) - (if Grants(b, now) then 1.0 else 0.0)
    ensures Attempt(b, now).tokens <= b.capacity - (if Grants(b, now) then 1.0 else 0.0)
  {
    EarnedGrows(b.rate, 0, now - b.last);
  }

  /** Tokens stay between 0 and the capacity in every run. */
  lemma {:induction false} TokensBounded(b: Bucket, times: seq<int>)
    requires Good(b) && Ordered(times, b.last)
    ensures Good(After(b, times)) && After(b, times).capacity == b.capacity
    decreases |times|
  {
    if times != [] {
      AttemptGood(b, times[0]);
      TokensBounded(Attempt(b, times[0]), times[1..]);
    }
  }

  lemma {:induction false} NothingLate(b: Bucket, times: seq<int>, a: int, z: int)
    requires Ordered(times, z + 1)
    ensures GrantsWithin(b, times, a, z) == 0
    decreases |times|
  {
    if times != [] {
      NothingLate(Attempt(b, times[0]), times[1..], a, z);
    }
  }

  /** Grants up to time z are paid for by the tokens in hand and those earned until z. */
  lemma {:induction false} GrantsArePaid(b: Bucket, times: seq<int>, a: int, z: int)
    requires Good(b) && Ordered(times, b.last) && b.last <= z
    ensures GrantsWithin(b, times, a, z) as real <= b.tokens + Earned(b.rate, z - b.last)
    decreases |times|
  {
    if times == [] || times[0] > z {
      EarnedGrows(b.rate, 0, z - b.last);
      NothingLate(b, times, a, z);
    } else {
      var t := times[0];
      AttemptGood(b, t);
      GrantsArePaid(Attempt(b, t), times[1..], a, z);
      EarnedSplits(b.rate, t - b.last, z - t);
    }
  }

  /** In any window of span milliseconds at most capacity + rate * span / 1000 calls start. */
  lemma WindowBound(b: Bucket, times: seq<int>, a: int, span: nat)
    requires Good(b) && Ordered(times, b.last)
    ensures GrantsWithin(b, times, a, a + span) as real <= b.capacity + Earned(b.rate, span)
    decreases |times|
  {
    if times == [] || times[0] > a + span {
      EarnedGrows(b.rate, 0, span);
      NothingLate(b, times, a, a + span);
    } else {
      var t := times[0];
      AttemptGood(b, t);
      if t < a {
        WindowBound(Attempt(b, t), times[1..], a, span);
      } else {
        GrantsArePaid(Attempt(b, t), times[1..], a, a + span);
        EarnedGrows(b.rate, a + span - t, span);
      }
    }
  }

  lemma EarnedInNumbers(rate: real, span: int)
    ensures Earned(rate, span) == rate * span as real / 1000.0
  {
  }

  /** The same bound from the moment the pool creates its bucket, for any positive rate. */
  lemma StartsPerWindow(requestsPerSecond: real, start: int, times: seq<int>, a: int, span: nat)
    requires requestsPerSecond > 0.0 && Ordered(times, start)
    ensures GrantsWithin(Create(requestsPerSecond, start), times, a, a + span) as real
            <= (if requestsPerSecond < 1.0 then 1.0 else requestsPerSecond) + requestsPerSecond * span as real / 1000.0
  {
    WindowBound(Create(requestsPerSecond, start), times, a, span);
    EarnedInNumbers(requestsPerSecond, span);
  }

  lemma {:induction false} BurstFrom(b: Bucket, times: seq<int>)
    requires Good(b) && (forall i :: 0 <= i < |times| ==> times[i] == b.last) && |times| as real <= b.tokens
    ensures GrantsWithin(b, times, b.last, b.last) == |times|
    decreases |times|
  {
    if times != [] {
      AttemptGood(b, b.last);
      BurstFrom(Attempt(b, b.last), times[1..]);
    }
  }

  /** The bucket starts full: as many calls as it holds start at once, one at least. */
  lemma {:induction false} StartsFull(requestsPerSecond: real, start: int, times: seq<int>)
    requires requestsPerSecond > 0.0 && forall i :: 0 <= i < |times| ==> times[i] == start
    requires |times| as real <= if requestsPerSecond < 1.0 then 1.0 else requestsPerSecond
    ensures GrantsWithin(Create(requestsPerSecond, start), times, start, start) == |times|
  {
    BurstFrom(Create(requestsPerSecond, start), times);
  }

  lemma CancelRate(x: real, rate: real, y: real)
    requires rate > 0.0 && y >= x / rate * 1000.0
    ensures y / 1000.0 * rate >= x
  {
    assert y / 1000.0 >= x / rate;
    assert x / rate * rate == x;
  }

  /** A refused worker that sleeps its full time and finds no competitor is served: the sleep is never too short. */
  lemma SleepIsEnough(b: Bucket, now: int, later: int)
    requires Good(b) && b.last <= now && !Grants(b, now)
    requires (later - now) as real >= WaitMs(Attempt(b, now))
    ensures WaitMs(Attempt(b, now)) > 0.0
    ensures Grants(Attempt(b, now), later)
  {
    var r := Attempt(b, now);
    AttemptGood(b, now);
    var missing := 1.0 - r.tokens;
    CancelRate(missing, r.rate, (later - now) as real);
    assert missing / r.rate > 0.0;
  }

  /** Nor too long: without competitors the worker is served exactly from then on. */
  lemma SleepIsExact(b: Bucket, now: int, later: int)
    requires Good(b) && b.last <= now <= later && !Grants(b, now)
    ensures Grants(Attempt(b, now), later) <==> (later - now) as real >= WaitMs(Attempt(b, now))
  {
    var r := Attempt(b, now);
    AttemptGood(b, now);
    if (later - now) as real >= WaitMs(r) {
      SleepIsEnough(b, now, later);
    } else {
      TooLittle(1.0 - r.tokens, r.rate, (later - now) as real);
    }
  }

  lemma TooLittle(x: real, rate: real, y: real)
    requires rate > 0.0 && y < x / rate * 1000.0
    ensures y / 1000.0 * rate < x
  {
    assert y / 1000.0 < x / rate;
    assert x / rate * rate == x;
  }

  /** The bucket object the workers share. */
  class TokenBucket {
    const capacity: real
    const rate: real
    var tokens: real
    var last: int

    ghost function View(): Bucket
      reads this
    {
      Bucket(tokens, capacity, rate, last)
    }

    constructor (requestsPerSecond: real, now: int)
      ensures View() == Create(requestsPerSecond, now)
    {
      var c := if requestsPerSecond < 1.0 then 1.0 else requestsPerSecond;
      capacity := c;
      tokens := c;
      rate := requestsPerSecond;
      last := now;
    }

    /** One turn of the loop. When refused, the worker sleeps waitMs and tries again. */
    method TryTake(now: int) returns (granted: bool, waitMs: real)
      requires Good(View()) && last <= now
      modifies this
      ensures View() == Attempt(old(View()), now) && granted == Grants(old(View()), now)
      ensures Good(View())
      ensures granted ==> waitMs == 0.0
      ensures !granted ==> waitMs == WaitMs(View())
    {
      AttemptGood(View(), now);
      var sum := tokens + ((now - last) as real / 1000.0) * rate;
      tokens := if capacity < sum then capacity else sum;
      last := now;
      if tokens >= 1.0 {
        tokens := tokens - 1.0;
        return true, 0.0;
      }
      return false, (1.0 - tokens) / rate * 1000.0;
    }
  }
}
