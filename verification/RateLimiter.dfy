/** The token bucket in front of the model: a bounded rate in every window, and when a
    refused caller may come back. Times are nanoseconds; the arithmetic is exact. */
module RateLimiter {

  const SECOND: real := 1000000000.0

  /** The permits that come back in some nanoseconds. */
  function Refill(rate: real, ns: int): real {
    ns as real / SECOND * rate
  }

  lemma RefillGrows(rate: real, ns: int)
    requires rate > 0.0
    ensures ns > 0 ==> Refill(rate, ns) > 0.0
    ensures ns == 0 ==> Refill(rate, ns) == 0.0
    ensures ns < 0 ==> Refill(rate, ns) < 0.0
  {
    var s := ns as real / SECOND;
    assert ns > 0 ==> s * rate > 0.0;
    assert ns < 0 ==> -s * rate > 0.0;
  }

  lemma RefillSum(rate: real, a: int, b: int)
    ensures Refill(rate, a + b) == Refill(rate, a) + Refill(rate, b)
  {
    var x, y := a as real / SECOND, b as real / SECOND;
    assert (a + b) as real / SECOND == x + y;
    assert (x + y) * rate == x * rate + y * rate;
  }

  /** What the bucket holds, and when it was last filled. Permits come back at `rate` a second. */
  datatype Bucket = Bucket(capacity: real, tokens: real, rate: real, last: int) {

    predicate Valid() {
      1.0 <= capacity && 0.0 <= tokens <= capacity && 0.0 < rate
    }

    function Refilled(now: int): Bucket {
      if now > last then
        var filled := tokens + Refill(rate, now - last);
        this.(tokens := if filled < capacity then filled else capacity, last := now)
      else this
    }

    /** The bucket after a call at time now, and whether it was granted. */
    function Taken(now: int): (Bucket, bool) {
      var b := Refilled(now);
      if b.tokens >= 1.0 then (b.(tokens := b.tokens - 1.0), true) else (b, false)
    }
  }

  /** The exact time, in nanoseconds, until a bucket left alone holds a whole permit. */
  function Shortfall(b: Bucket): real
    requires b.rate > 0.0
  {
    (1.0 - b.tokens) / b.rate * SECOND
  }

  class RateLimiter {
    var bucket: Bucket

    /** Unlimited when perMinute is not positive; the burst defaults to perMinute. */
    constructor (perMinute: int, burst: int, now: int)
      ensures perMinute <= 0 ==> bucket.rate == 0.0
      ensures perMinute > 0 ==> bucket.Valid() && bucket.tokens == bucket.capacity
      ensures perMinute > 0 ==> bucket.capacity == (if burst > 0 then burst else perMinute) as real
      ensures perMinute > 0 ==> bucket.rate * 60.0 == perMinute as real && bucket.last == now
    {
      if perMinute <= 0 {
        bucket := Bucket(0.0, 0.0, 0.0, now);
      } else {
        var size := if burst <= 0 then perMinute else burst;
        bucket := Bucket(size as real, size as real, perMinute as real / 60.0, now);
      }
    }

    /** One permit, or how long until there is one, in whole nanoseconds. */
    method Take(now: int) returns (granted: bool, wait: int)
      requires bucket.Valid()
      modifies this
      ensures bucket.Valid()
      ensures (bucket, granted) == old(bucket).Taken(now)
      ensures wait == if granted then 0 else Shortfall(bucket).Floor
    {
      hide Refill, Shortfall;
      var elapsed := now - bucket.last;
      if elapsed > 0 {
        RefillGrows(bucket.rate, elapsed);
        var filled := bucket.tokens + Refill(bucket.rate, elapsed);
        bucket := bucket.(tokens := if filled < bucket.capacity then filled else bucket.capacity, last := now);
      }
      if bucket.tokens >= 1.0 {
        bucket := bucket.(tokens := bucket.tokens - 1.0);
        return true, 0;
      }
      return false, Shortfall(bucket).Floor;
    }

    /** Takes until granted, coming back at the given times; cancelled when they run out.
        The permit is the first there was. */
    method Wait(clock: seq<int>) returns (granted: bool, tries: nat)
      requires bucket.rate == 0.0 || bucket.Valid()
      modifies this
      ensures old(bucket).rate == 0.0 ==> granted && tries == 0 && bucket == old(bucket)
      ensures old(bucket).rate != 0.0 ==> tries <= |clock| && bucket == After(old(bucket), clock[..tries])
      ensures old(bucket).rate != 0.0 ==>
                if granted then tries > 0 && Grants(old(bucket), clock[..tries]) == 1 && Grants(old(bucket), clock[..tries - 1]) == 0
                else tries == |clock| && Grants(old(bucket), clock) == 0
    {
      tries := 0;
      if bucket.rate == 0.0 {
        return true, 0;
      }
      while tries < |clock|
        invariant tries <= |clock| && bucket.Valid()
        invariant bucket == After(old(bucket), clock[..tries]) && Grants(old(bucket), clock[..tries]) == 0
      {
        var wait;
        ghost var before := bucket;
        granted, wait := Take(clock[tries]);
        OneMore(old(bucket), clock[..tries], clock[tries]);
        assert clock[..tries + 1] == clock[..tries] + [clock[tries]];
        tries := tries + 1;
        if granted {
          return;
        }
      }
      assert clock[..tries] == clock;
      return false, tries;
    }
  }

  // ---------------------------------------------------------------------------
  // A bounded rate in every window
  // ---------------------------------------------------------------------------

  /** The bucket after calls at these times. */
  function After(b: Bucket, times: seq<int>): Bucket
    decreases |times|
  {
    if times == [] then b else After(b.Taken(times[0]).0, times[1..])
  }

  /** How many calls at these times are granted. */
  function Grants(b: Bucket, times: seq<int>): nat
    decreases |times|
  {
    if times == [] then 0
    else (if b.Taken(times[0]).1 then 1 else 0) + Grants(b.Taken(times[0]).0, times[1..])
  }

  lemma {:induction false} OneMore(b: Bucket, times: seq<int>, now: int)
    ensures After(b, times + [now]) == After(b, times).Taken(now).0
    ensures Grants(b, times + [now]) == Grants(b, times) + if After(b, times).Taken(now).1 then 1 else 0
    decreases |times|
  {
    hide Refill;
    if times == [] {
      assert [now][1..] == [];
    } else {
      assert (times + [now])[1..] == times[1..] + [now];
      OneMore(b.Taken(times[0]).0, times[1..], now);
    }
  }

  /** A refilled bucket stays within its capacity, and pays for what it gains. */
  lemma RefilledPays(b: Bucket, now: int)
    requires b.Valid()
    ensures var c := b.Refilled(now);
            && c.Valid() && c.capacity == b.capacity && c.rate == b.rate && c.last == Max(now, b.last)
            && b.tokens <= c.tokens <= b.tokens + Refill(b.rate, c.last - b.last)
  {
    hide Refill;
    RefillGrows(b.rate, Max(now, b.last) - b.last);
  }

  function Max(a: int, b: int): int {
    if a > b then a else b
  }

  /** What was granted is what was there and what came back, less what is left or ran over. */
  lemma {:induction false} GrantsArePaidFor(b: Bucket, times: seq<int>)
    requires b.Valid()
    ensures var c := After(b, times);
            && c.Valid() && c.capacity == b.capacity && c.rate == b.rate && c.last >= b.last
            && (forall i | 0 <= i < |times| :: times[i] <= c.last)
            && (c.last == b.last || c.last in times)
            && Grants(b, times) as real + c.tokens <= b.tokens + Refill(b.rate, c.last - b.last)
    decreases |times|
  {
    hide Refill;
    RefillGrows(b.rate, 0);
    if times != [] {
      var next := b.Taken(times[0]).0;
      RefilledPays(b, times[0]);
      GrantsArePaidFor(next, times[1..]);
      var end := After(next, times[1..]);
      RefillSum(b.rate, next.last - b.last, end.last - next.last);
    }
  }

  predicate InOrder(times: seq<int>) {
    forall i, j | 0 <= i <= j < |times| :: times[i] <= times[j]
  }

  lemma SameRun(b: Bucket, times: seq<int>)
    requires times != []
    ensures After(b.Refilled(times[0]), times) == After(b, times)
    ensures Grants(b.Refilled(times[0]), times) == Grants(b, times)
  {
    hide Refill;
  }

  lemma RefillMonotone(rate: real, a: int, b: int)
    requires rate > 0.0 && a <= b
    ensures Refill(rate, a) <= Refill(rate, b)
  {
    hide Refill;
    RefillSum(rate, a, b - a);
    RefillGrows(rate, b - a);
  }

  /** In every window of calls, at most a full bucket and what comes back meanwhile is granted,
      whatever was called before. */
  lemma WindowIsBounded(b: Bucket, times: seq<int>, i: nat, j: nat)
    requires b.Valid() && InOrder(times) && i < j <= |times|
    ensures Grants(After(b, times[..i]), times[i..j]) as real
            <= b.capacity + Refill(b.rate, times[j - 1] - times[i])
  {
    hide Refill, Grants, After;
    var start, window := After(b, times[..i]), times[i..j];
    GrantsArePaidFor(b, times[..i]);
    RefilledPays(start, window[0]);
    var filled := start.Refilled(window[0]);
    SameRun(start, window);
    GrantsArePaidFor(filled, window);
    RefillMonotone(b.rate, After(filled, window).last - filled.last, times[j - 1] - times[i]);
  }

  /** A minute brings back as many permits as were configured for it. */
  lemma MinuteRefills(perMinute: int)
    ensures Refill(perMinute as real / 60.0, 60_000_000_000) == perMinute as real
  {
  }

  /** A call takes a permit exactly when there is a whole one, counting what came back since the
      last call and what the bucket can hold; time that goes backwards brings nothing back. */
  lemma TakesExactlyIf(b: Bucket, now: int)
    requires b.Valid()
    ensures var c, granted := b.Taken(now).0, b.Taken(now).1;
            var back := if now > b.last then (now - b.last) as real / 1000000000.0 * b.rate else 0.0;
            var there := if b.tokens + back > b.capacity then b.capacity else b.tokens + back;
            && (granted <==> there >= 1.0) && c.tokens == (if granted then there - 1.0 else there)
            && c.last == (if now > b.last then now else b.last) && c.capacity == b.capacity && c.rate == b.rate
  {
  }

  lemma OnTimeIsGranted(b: Bucket, now: int, gap: int)
    requires b.Valid() && Refill(b.rate, gap) >= 1.0 && now >= b.last + gap
    ensures b.Taken(now).1
  {
    hide Refill;
    RefillMonotone(b.rate, gap, now - b.last);
    RefillGrows(b.rate, gap);
  }

  /** Calls far enough apart for a permit to come back in between are all granted. */
  lemma {:induction false} SteadyCallsAreGranted(b: Bucket, times: seq<int>, gap: int)
    requires b.Valid() && Refill(b.rate, gap) >= 1.0
    requires times != [] ==> times[0] >= b.last + gap
    requires forall i | 0 < i < |times| :: times[i] >= times[i - 1] + gap
    ensures Grants(b, times) == |times|
    decreases |times|
  {
    hide Refill;
    if times != [] {
      OnTimeIsGranted(b, times[0], gap);
      RefilledPays(b, times[0]);
      RefillGrows(b.rate, gap);
      SteadyCallsAreGranted(b.Taken(times[0]).0, times[1..], gap);
    }
  }

  /** And so is a burst as large as the bucket has whole permits. */
  lemma {:induction false} BurstIsGranted(b: Bucket, times: seq<int>)
    requires b.Valid() && |times| as real <= b.tokens
    ensures Grants(b, times) == |times|
    decreases |times|
  {
    hide Refill;
    if times != [] {
      RefilledPays(b, times[0]);
      BurstIsGranted(b.Taken(times[0]).0, times[1..]);
    }
  }

  // ---------------------------------------------------------------------------
  // Coming back after a refusal
  // ---------------------------------------------------------------------------

  lemma RefillDue(b: Bucket, ns: int)
    requires b.rate > 0.0
    ensures b.tokens + Refill(b.rate, ns) >= 1.0 <==> ns as real >= Shortfall(b)
  {
    var s, d := ns as real / SECOND, 1.0 - b.tokens;
    assert d / b.rate * b.rate == d;
    if s >= d / b.rate {
      assert (s - d / b.rate) * b.rate >= 0.0;
    } else {
      assert (d / b.rate - s) * b.rate > 0.0;
    }
  }

  /** A refused caller coming back alone is granted exactly from the exact time on; the wait
      it was told is that time rounded down, so coming back after just that wait succeeds
      only when nothing was rounded off, and a nanosecond later always. */
  lemma ComingBack(b: Bucket, now: int, later: nat)
    requires b.Valid() && now >= b.last && !b.Taken(now).1
    ensures var c := b.Taken(now).0;
            && Shortfall(c) > 0.0
            && (c.Taken(now + later).1 <==> later as real >= Shortfall(c))
            && (later == Shortfall(c).Floor ==> (c.Taken(now + later).1 <==> Shortfall(c).Floor as real == Shortfall(c)))
            && (later > Shortfall(c).Floor ==> c.Taken(now + later).1)
  {
    hide Refill;
    var c := b.Taken(now).0;
    RefilledPays(b, now);
    RefillDue(c, later);
    RefillGrows(c.rate, later);
    RefillDue(c, 0);
  }

  /** Being refused again costs nothing: the exact time of the next permit stays the same. */
  lemma RefusalsCostNothing(b: Bucket, now: int)
    requires b.Valid() && now >= b.last && !b.Taken(now).1
    ensures Shortfall(b.Taken(now).0) == Shortfall(b) - (now - b.last) as real
  {
    hide Refill;
    RefilledPays(b, now);
    RefillGrows(b.rate, now - b.last);
    if now > b.last {
      ShortfallShrinks(b, now - b.last);
    }
  }

  lemma ShortfallShrinks(b: Bucket, ns: int)
    requires b.rate > 0.0
    ensures Shortfall(b.(tokens := b.tokens + Refill(b.rate, ns), last := b.last + ns)) == Shortfall(b) - ns as real
  {
    var x, d := ns as real / SECOND, 1.0 - b.tokens;
    assert (d - x * b.rate) / b.rate == d / b.rate - x;
  }

  /** At seven requests a minute the wait is rounded: coming back just then is refused. */
  lemma WaitIsTooShort()
    ensures var b := Bucket(1.0, 0.0, 7.0 / 60.0, 0);
            b.Valid() && !b.Taken(0).1 && !b.Taken(0).0.Taken(Shortfall(b.Taken(0).0).Floor).1
  {
    var b := Bucket(1.0, 0.0, 7.0 / 60.0, 0);
    assert Shortfall(b) == 60000000000.0 / 7.0;
    assert 7 * 8571428571 == 59999999997;
    assert Shortfall(b).Floor == 8571428571;
    ComingBack(b, 0, Shortfall(b).Floor);
  }
}
