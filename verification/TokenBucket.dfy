/** The arithmetic of the rate limiter: what a token bucket admits, in exact scaled integers. Time is in
    microseconds; one token is 60,000,000 units, so that `limit` requests per minute refill `limit` units per
    microsecond. */
module TokenBucket {

  const TOKEN := 60_000_000

  function Max(a: int, b: int): int {
    if a < b then b else a
  }

  function Min(a: int, b: int): int {
    if a < b then a else b
  }

  function Capacity(limit: nat): int {
    limit * TOKEN
  }

  /** The refill between two readings of the clock; a clock that goes back refills nothing. */
  function Refill(limit: nat, before: int, now: int): (units: int)
    ensures units >= 0
  {
    limit * Max(0, now - before)
  }

  // ---------- the bucket along a sequence of requests and decisions ----------

  function Cost(admitted: bool): int {
    if admitted then TOKEN else 0
  }

  /** Units available when request n is decided, given the decisions on the requests before it. */
  function Level(limit: nat, times: seq<int>, d: seq<bool>, n: nat): int
    requires n < |times| && n <= |d|
  {
    if n == 0 then Capacity(limit)
    else Min(Capacity(limit), Level(limit, times, d, n - 1) - Cost(d[n - 1]) + Refill(limit, times[n - 1], times[n]))
  }

  /** Admit nothing the bucket does not hold. */
  ghost predicate Conforms(limit: nat, times: seq<int>, d: seq<bool>) {
    |d| <= |times| && forall n | 0 <= n < |d| :: d[n] ==> Level(limit, times, d, n) >= TOKEN
  }

  /** The limiter: admit whenever the bucket holds a token. */
  function Decide(limit: nat, times: seq<int>, n: nat): (d: seq<bool>)
    requires n <= |times|
    ensures |d| == n
  {
    if n == 0 then []
    else
      var d := Decide(limit, times, n - 1);
      d + [Level(limit, times, d, n - 1) >= TOKEN]
  }

  /** Units refilled from request j to request n. */
  function Gained(limit: nat, times: seq<int>, j: nat, n: nat): (units: int)
    requires j <= n < |times|
    ensures units >= 0
  {
    if j == n then 0 else Gained(limit, times, j, n - 1) + Refill(limit, times[n - 1], times[n])
  }

  /** Units spent on requests j, ..., n-1. */
  function Spent(d: seq<bool>, j: nat, n: nat): int
    requires j <= n <= |d|
  {
    if j == n then 0 else Spent(d, j, n - 1) + Cost(d[n - 1])
  }

  /** From request to request: what was spent goes, limit units come per microsecond up to sixty million a token, and a
      clock that stands still or goes back brings nothing. */
  lemma LevelStep(limit: nat, times: seq<int>, d: seq<bool>, n: nat)
    requires 0 < n < |times| && n <= |d|
    ensures var left := Level(limit, times, d, n - 1) - (if d[n - 1] then 60_000_000 else 0);
            && (times[n] <= times[n - 1] ==> Level(limit, times, d, n) == left)
            && (times[n] > times[n - 1] ==>
                  Level(limit, times, d, n) == Min(limit * 60_000_000, left + limit * (times[n] - times[n - 1])))
    ensures Level(limit, times, d, 0) == limit * 60_000_000
  {
    LevelWithin(limit, times, d, n - 1);
    assert limit * 0 == 0;
  }

  lemma LevelWithin(limit: nat, times: seq<int>, d: seq<bool>, n: nat)
    requires n < |times| && n <= |d|
    ensures Level(limit, times, d, n) <= limit * 60_000_000
  {
  }

  // ---------- the closed form ----------

  function Window(limit: nat, times: seq<int>, d: seq<bool>, j: nat, n: nat): int
    requires j <= n < |times| && n <= |d|
  {
    Capacity(limit) + Gained(limit, times, j, n) - Spent(d, j, n)
  }

  /** The level is the minimum, over all earlier requests j, of a full bucket at j plus what came in and minus what
      went out since. */
  lemma {:induction false} ClosedForm(limit: nat, times: seq<int>, d: seq<bool>, n: nat)
    requires n < |times| && n <= |d|
    ensures forall j | 0 <= j <= n :: Level(limit, times, d, n) <= Window(limit, times, d, j, n)
    ensures exists j | 0 <= j <= n :: Level(limit, times, d, n) == Window(limit, times, d, j, n)
  {
    assert Window(limit, times, d, n, n) == Capacity(limit);
    if n > 0 {
      ClosedForm(limit, times, d, n - 1);
      var k :| 0 <= k <= n - 1 && Level(limit, times, d, n - 1) == Window(limit, times, d, k, n - 1);
      assert Window(limit, times, d, k, n) >= Level(limit, times, d, n);
      var change := Refill(limit, times[n - 1], times[n]) - Cost(d[n - 1]);
      assert forall j | 0 <= j < n :: Window(limit, times, d, j, n) == Window(limit, times, d, j, n - 1) + change;
    }
  }

  /** The limiter admits request n exactly when, with it, every window that ends now stays within the capacity plus
      the refill of that window. */
  lemma AdmitsExactlyWithinWindows(limit: nat, times: seq<int>, n: nat)
    requires n < |times|
    ensures Decide(limit, times, n + 1)[n] <==>
      forall j | 0 <= j <= n ::
        Spent(Decide(limit, times, n), j, n) + TOKEN <= Capacity(limit) + Gained(limit, times, j, n)
  {
    var d := Decide(limit, times, n);
    ClosedForm(limit, times, d, n);
    if Level(limit, times, d, n) < TOKEN {
      var k :| 0 <= k <= n && Level(limit, times, d, n) == Window(limit, times, d, k, n);
      assert !(Spent(d, k, n) + TOKEN <= Capacity(limit) + Gained(limit, times, k, n));
    } else {
      forall j | 0 <= j <= n ensures Spent(d, j, n) + TOKEN <= Capacity(limit) + Gained(limit, times, j, n) {
        assert Level(limit, times, d, n) <= Window(limit, times, d, j, n);
      }
    }
  }

  lemma {:induction false} LevelDependsOnPast(limit: nat, times: seq<int>, d: seq<bool>, e: seq<bool>, n: nat)
    requires n < |times| && n <= |d| && n <= |e| && d[..n] == e[..n]
    ensures Level(limit, times, d, n) == Level(limit, times, e, n)
  {
    if n > 0 {
      assert d[n - 1] == d[..n][n - 1] == e[n - 1];
      assert d[..n - 1] == d[..n][..n - 1] == e[..n - 1];
      LevelDependsOnPast(limit, times, d, e, n - 1);
    }
  }

  lemma {:induction false} DecidePrefix(limit: nat, times: seq<int>, m: nat, n: nat)
    requires m <= n <= |times|
    ensures Decide(limit, times, n)[..m] == Decide(limit, times, m)
    decreases n
  {
    if m < n {
      DecidePrefix(limit, times, m, n - 1);
    }
  }

  lemma DecideAt(limit: nat, times: seq<int>, n: nat, i: nat)
    requires i < n <= |times|
    ensures Decide(limit, times, n)[i] <==> Level(limit, times, Decide(limit, times, n), i) >= TOKEN
  {
    DecideOnce(limit, times, n, i);
    DecidePrefix(limit, times, i, n);
    LevelDependsOnPast(limit, times, Decide(limit, times, n), Decide(limit, times, i), i);
  }

  /** A decision is made once, from the decisions before it. */
  lemma {:induction false} DecideOnce(limit: nat, times: seq<int>, n: nat, i: nat)
    requires i < n <= |times|
    ensures Decide(limit, times, n)[i] <==> Level(limit, times, Decide(limit, times, i), i) >= TOKEN
    decreases n
  {
    if i < n - 1 {
      DecideOnce(limit, times, n - 1, i);
    }
  }

  lemma DecideConforms(limit: nat, times: seq<int>, n: nat)
    requires n <= |times|
    ensures Conforms(limit, times, Decide(limit, times, n))
  {
    forall i | 0 <= i < n
      ensures Decide(limit, times, n)[i] ==> Level(limit, times, Decide(limit, times, n), i) >= TOKEN
    {
      DecideAt(limit, times, n, i);
    }
  }

  lemma {:induction false} LevelNotNegative(limit: nat, times: seq<int>, d: seq<bool>, n: nat)
    requires Conforms(limit, times, d) && n <= |d| && n < |times|
    ensures Level(limit, times, d, n) >= 0
  {
    if n > 0 {
      LevelNotNegative(limit, times, d, n - 1);
    }
  }

  /** In any window, from request j to request n, the limiter admits no more than a full bucket and the refill. */
  lemma WindowBound(limit: nat, times: seq<int>, d: seq<bool>, j: nat, n: nat)
    requires Conforms(limit, times, d) && j <= n < |d|
    ensures Spent(d, j, n + 1) <= Capacity(limit) + Gained(limit, times, j, n)
  {
    ClosedForm(limit, times, d, n);
    LevelNotNegative(limit, times, d, n);
    assert Level(limit, times, d, n) <= Window(limit, times, d, j, n);
  }

  lemma {:induction false} GainedIsElapsed(limit: nat, times: seq<int>, j: nat, n: nat)
    requires j <= n < |times| && forall i | 0 < i < |times| :: times[i - 1] <= times[i]
    ensures times[j] <= times[n] && Gained(limit, times, j, n) == limit * (times[n] - times[j])
  {
    if j < n {
      GainedIsElapsed(limit, times, j, n - 1);
      var a, b := times[n - 1] - times[j], times[n] - times[n - 1];
      assert times[n] - times[j] == a + b;
      assert limit * (a + b) == limit * a + limit * b;
    }
  }

  function Count(d: seq<bool>, j: nat, n: nat): nat
    requires j <= n <= |d|
  {
    if j == n then 0 else Count(d, j, n - 1) + (if d[n - 1] then 1 else 0)
  }

  lemma {:induction false} SpentIsCount(d: seq<bool>, j: nat, n: nat)
    requires j <= n <= |d|
    ensures Spent(d, j, n) == TOKEN * Count(d, j, n)
  {
    if j < n {
      SpentIsCount(d, j, n - 1);
    }
  }

  /** With a clock that does not go back: at most limit + limit * T / 60 requests in any T seconds. */
  lemma AtMostLimitPerMinute(limit: nat, times: seq<int>, j: nat, n: nat)
    requires j <= n < |times| && forall i | 0 < i < |times| :: times[i - 1] <= times[i]
    ensures TOKEN * Count(Decide(limit, times, |times|), j, n + 1) <= limit * TOKEN + limit * (times[n] - times[j])
  {
    var d := Decide(limit, times, |times|);
    DecideConforms(limit, times, |times|);
    WindowBound(limit, times, d, j, n);
    GainedIsElapsed(limit, times, j, n);
    SpentIsCount(d, j, n + 1);
  }

  /** No rule that respects the bucket admits more requests, at any time, than the limiter does. */
  lemma {:induction false} AdmitsTheMost(limit: nat, times: seq<int>, d: seq<bool>, n: nat)
    requires Conforms(limit, times, d) && n <= |d|
    ensures Count(d, 0, n) <= Count(Decide(limit, times, |d|), 0, n)
    ensures n < |times| && n <= |d| ==>
      var g := Decide(limit, times, |d|);
      Level(limit, times, d, n) <= Level(limit, times, g, n) + TOKEN * (Count(g, 0, n) - Count(d, 0, n))
  {
    if n > 0 {
      AdmitsTheMost(limit, times, d, n - 1);
      DecideAt(limit, times, |d|, n - 1);
    }
  }
}
