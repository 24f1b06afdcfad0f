/** The Redis token bucket: the Lua script with its key expiry, and why forgetting idle keys changes no decision. */
module RateLimiter {
  import opened TokenBucket
  import opened Expiry

  const SECOND := 1_000_000

  /** The hash stored under a key, and when Redis may drop it: a deadline in whole milliseconds. */
  datatype Bucket = Bucket(tokens: int, ts: int, expireAt: int)

  type Store = map<string, Bucket>

  /** The clock in microseconds, as Redis reads it for deadlines. */
  function Millis(now: int): int {
    now / 1000
  }

  /** EXPIRE: so many seconds after the millisecond of the command. */
  function Deadline(now: int, expiry: int): int {
    Millis(now) + 1000 * expiry
  }

  /** Redis answers as if the key were gone once its deadline has passed. */
  predicate Live(store: Store, key: string, now: int) {
    key in store && Millis(now) <= store[key].expireAt
  }

  /** Units in the bucket when a request arrives: full for an unknown key, else what is left plus the refill. */
  function Available(limit: nat, store: Store, key: string, now: int): int {
    if Live(store, key, now)
    then Min(Capacity(limit), store[key].tokens + Refill(limit, store[key].ts, now))
    else Capacity(limit)
  }

  /** A bucket that is gone is full; one that is there gains limit units per microsecond up to sixty million a token,
      and nothing when the clock stands still or went back. */
  lemma AvailableExact(limit: nat, store: Store, key: string, now: int)
    requires key in store ==> store[key].tokens <= limit * 60_000_000
    ensures Available(limit, store, key, now) ==
            if key !in store || now / 1000 > store[key].expireAt then limit * 60_000_000
            else if now <= store[key].ts then store[key].tokens
            else Min(limit * 60_000_000, store[key].tokens + limit * (now - store[key].ts))
  {
    assert limit * 0 == 0;
  }

  /** The store after a request, when the script sends `expiry` seconds. */
  function Charged(limit: nat, expiry: int, store: Store, key: string, now: int): Store {
    var available := Available(limit, store, key, now);
    store[key := Bucket(available - Cost(available >= TOKEN), now, Deadline(now, expiry))]
  }

  class RedisLimiter {
    const limit: nat
    var store: Store

    ghost predicate Valid()
      reads this
    {
      limit > 0
    }

    constructor (limit: nat)
      requires limit > 0
      ensures Valid() && this.limit == limit && store == map[]
    {
      this.limit := limit;
      store := map[];
    }

    /** One run of the script, which Redis executes atomically. */
    method Allow(key: string, now: int) returns (allowed: bool)
      requires Valid()
      modifies this`store
      ensures Valid()
      ensures allowed <==> Available(limit, old(store), key, now) >= TOKEN
      ensures store == Charged(limit, ExpireSeconds(limit), old(store), key, now)
    {
      var capacity := limit * TOKEN;
      var tokens, ts;
      if key in store && Millis(now) <= store[key].expireAt {
        tokens, ts := store[key].tokens, store[key].ts;
      } else {
        tokens, ts := capacity, now;
      }
      var elapsed := Max(0, now - ts);
      tokens := Min(capacity, tokens + limit * elapsed);
      allowed := false;
      if tokens >= TOKEN {
        allowed := true;
        tokens := tokens - TOKEN;
      }
      store := store[key := Bucket(tokens, now, Deadline(now, ExpireSeconds(limit)))];
    }

    /** Redis drops a key whose deadline has passed. */
    method Expire(key: string, now: int)
      modifies this`store
      ensures store == Swept(old(store), key, now)
    {
      if key in store && Millis(now) > store[key].expireAt {
        store := store - {key};
      }
    }
  }

  function Swept(store: Store, key: string, now: int): Store {
    if key in store && Millis(now) > store[key].expireAt then store - {key} else store
  }

  // ---------- runs over many keys ----------

  datatype Event = Request(key: string, now: int) | Sweep(key: string, now: int)

  /** The limiter whose keys expire after `expiry` seconds without use. */
  function Expiring(limit: nat, expiry: int, events: seq<Event>): (Store, seq<bool>) {
    if events == [] then (map[], [])
    else
      var (store, verdicts) := Expiring(limit, expiry, events[..|events| - 1]);
      match events[|events| - 1]
      case Request(key, now) => (Charged(limit, expiry, store, key, now),
          verdicts + [Available(limit, store, key, now) >= TOKEN])
      case Sweep(key, now) => (Swept(store, key, now), verdicts)
  }

  /** A limiter that never forgets: per key, the times of its requests. Decisions come from the bucket arithmetic. */
  function TimesOf(events: seq<Event>, key: string): seq<int> {
    if events == [] then []
    else
      var e := events[|events| - 1];
      TimesOf(events[..|events| - 1], key) + (if e.Request? && e.key == key then [e.now] else [])
  }

  function Forever(limit: nat, events: seq<Event>): seq<bool> {
    if events == [] then []
    else
      var before, e := events[..|events| - 1], events[|events| - 1];
      Forever(limit, before) +
      (if e.Request? then
         var times := TimesOf(events, e.key);
         (assert |times| > 0; [Decide(limit, times, |times|)[|times| - 1]])
       else [])
  }

  /** The clock never falls more than `lag` below an earlier reading. */
  predicate FallsAtMost(events: seq<Event>, lag: int) {
    forall i, j | 0 <= i < j < |events| :: events[i].now - events[j].now <= lag
  }

  /** How far back the clock may go: what the expiry exceeds the sixty seconds of a full refill by, and the smallest
      step of the clock, because a deadline has to be exceeded. (Deadlines are in milliseconds, but a request at the end
      of its millisecond gets its key dropped that soon.) */
  function Tolerance(expiry: int): int {
    (expiry - 60) * SECOND + 1
  }

  /** The highest clock reading so far. */
  function Peak(events: seq<Event>): (peak: int)
    requires events != []
    ensures forall i | 0 <= i < |events| :: events[i].now <= peak
    ensures exists i | 0 <= i < |events| :: events[i].now == peak
  {
    var last := events[|events| - 1];
    if |events| == 1 then last.now else Max(Peak(events[..|events| - 1]), last.now)
  }

  /** What the never-forgetting bucket of a key holds after its last request. */
  function Left(limit: nat, times: seq<int>): int
    requires |times| > 0
  {
    var n := |times| - 1;
    var level := Level(limit, times, Decide(limit, times, n), n);
    level - Cost(level >= TOKEN)
  }

  /** A key is stored with exactly the never-forgetting bucket, or was dropped after its deadline. */
  ghost predicate Agrees(limit: nat, expiry: int, store: Store, times: seq<int>, key: string, peak: int)
    requires limit > 0
  {
    if times == [] then key !in store
    else
      var last := times[|times| - 1];
      && 0 <= Left(limit, times)
      && (key in store ==> store[key] == Bucket(Left(limit, times), last, Deadline(last, expiry)))
      && (key !in store ==> Millis(peak) > Deadline(last, expiry))
  }

  lemma {:induction false} LevelOfLonger(limit: nat, times: seq<int>, t: int, d: seq<bool>, n: nat)
    requires n < |times| && n <= |d|
    ensures Level(limit, times + [t], d, n) == Level(limit, times, d, n)
  {
    if n > 0 {
      LevelOfLonger(limit, times, t, d, n - 1);
    }
  }

  lemma {:induction false} DecideOfLonger(limit: nat, times: seq<int>, t: int, n: nat)
    requires n <= |times|
    ensures Decide(limit, times + [t], n) == Decide(limit, times, n)
  {
    if n > 0 {
      DecideOfLonger(limit, times, t, n - 1);
      LevelOfLonger(limit, times, t, Decide(limit, times, n - 1), n - 1);
    }
  }

  /** The next level of a key's never-forgetting bucket, from what was left. */
  lemma NextLevel(limit: nat, times: seq<int>, t: int)
    ensures var n := |times|;
            Level(limit, times + [t], Decide(limit, times + [t], n), n) ==
            if n == 0 then Capacity(limit)
            else Min(Capacity(limit), Left(limit, times) + Refill(limit, times[n - 1], t))
  {
    var n := |times|;
    DecideOfLonger(limit, times, t, n);
    if n > 0 {
      var d := Decide(limit, times, n);
      LevelOfLonger(limit, times, t, d, n - 1);
      DecideAt(limit, times, n, n - 1);
      DecidePrefix(limit, times, n - 1, n);
      LevelDependsOnPast(limit, times, d, Decide(limit, times, n - 1), n - 1);
    }
  }

  predicate FullAgain(limit: nat, left: int, last: int, now: int) {
    left + Refill(limit, last, now) >= Capacity(limit)
  }

  lemma FullByDeadline(limit: nat, left: int, last: int, now: int)
    requires left >= 0 && now - last >= 60 * SECOND
    ensures FullAgain(limit, left, last, now)
  {
    assert limit * (now - last) >= limit * TOKEN;
  }

  lemma LessRefill(limit: nat, a: int, b: int)
    requires limit > 0 && a < b
    ensures limit * a < limit * b
  {
  }

  /** Whatever was left, the bucket is sure to be full again exactly when sixty seconds have passed without use. */
  lemma FullAfterAMinute(limit: nat, last: int, now: int)
    requires limit > 0
    ensures (forall left | 0 <= left :: FullAgain(limit, left, last, now)) <==> now - last >= 60 * SECOND
  {
    if now - last >= 60 * SECOND {
      forall left | 0 <= left ensures FullAgain(limit, left, last, now) {
        FullByDeadline(limit, left, last, now);
      }
    } else {
      LessRefill(limit, Max(0, now - last), TOKEN);
      assert !FullAgain(limit, 0, last, now);
    }
  }

  /** Whatever happened to the key, the script sees the never-forgetting level. */
  lemma SameLevel(limit: nat, expiry: int, store: Store, times: seq<int>, key: string, peak: int, now: int)
    requires limit > 0 && expiry >= 60 && Agrees(limit, expiry, store, times, key, peak) &&
             peak - now <= Tolerance(expiry)
    ensures Available(limit, store, key, now) ==
            Level(limit, times + [now], Decide(limit, times + [now], |times|), |times|)
  {
    NextLevel(limit, times, now);
    if times != [] && !Live(store, key, now) {
      FullByDeadline(limit, Left(limit, times), times[|times| - 1], now);
    }
  }

  lemma RequestAgrees(limit: nat, expiry: int, store: Store, times: seq<int>, key: string, peak: int, now: int)
    requires limit > 0 && expiry >= 60 && Agrees(limit, expiry, store, times, key, peak) &&
             peak - now <= Tolerance(expiry)
    ensures Agrees(limit, expiry, Charged(limit, expiry, store, key, now), times + [now], key, Max(peak, now))
    ensures Decide(limit, times + [now], |times| + 1)[|times|] <==> Available(limit, store, key, now) >= TOKEN
  {
    SameLevel(limit, expiry, store, times, key, peak, now);
    DecideOfLonger(limit, times, now, |times|);
    assert Available(limit, store, key, now) >= 0;
    assert (times + [now])[|times|] == now;
  }

  ghost predicate AllAgree(limit: nat, expiry: int, events: seq<Event>)
    requires limit > 0 && events != []
  {
    forall key: string ::
      Agrees(limit, expiry, Expiring(limit, expiry, events).0, TimesOf(events, key), key, Peak(events))
  }

  /** One event, seen from one key. */
  lemma EventAgrees(limit: nat, expiry: int, events: seq<Event>, key: string, before: int)
    requires limit > 0 && expiry >= 60 && events != []
    requires var past := events[..|events| - 1];
             && Agrees(limit, expiry, Expiring(limit, expiry, past).0, TimesOf(past, key), key, before)
             && before - events[|events| - 1].now <= Tolerance(expiry) &&
                Peak(events) == Max(before, events[|events| - 1].now)
    ensures Agrees(limit, expiry, Expiring(limit, expiry, events).0, TimesOf(events, key), key, Peak(events))
    ensures var past, e := events[..|events| - 1], events[|events| - 1];
            e.Request? && e.key == key ==>
              TimesOf(events, key) == TimesOf(past, key) + [e.now] &&
              (Decide(limit, TimesOf(events, key), |TimesOf(events, key)|)[|TimesOf(past, key)|]
               <==> Available(limit, Expiring(limit, expiry, past).0, key, e.now) >= TOKEN)
  {
    var past, e := events[..|events| - 1], events[|events| - 1];
    if e.Request? && e.key == key {
      assert TimesOf(events, key) == TimesOf(past, key) + [e.now];
      RequestAgrees(limit, expiry, Expiring(limit, expiry, past).0, TimesOf(past, key), key, before, e.now);
    } else {
      assert TimesOf(events, key) == TimesOf(past, key);
    }
  }

  /** Key expiry is a refinement: while the clock falls back by no more than the tolerance, the limiter that forgets
      idle keys answers every request of every key as one that remembers everything. */
  lemma {:induction false} ForgettingIsSafe(limit: nat, expiry: int, events: seq<Event>)
    requires limit > 0 && expiry >= 60 && FallsAtMost(events, Tolerance(expiry))
    ensures Expiring(limit, expiry, events).1 == Forever(limit, events)
    ensures events != [] ==> AllAgree(limit, expiry, events)
  {
    if events != [] {
      var past, e := events[..|events| - 1], events[|events| - 1];
      ForgettingIsSafe(limit, expiry, past);
      var before := if past == [] then e.now else Peak(past);
      assert before - e.now <= Tolerance(expiry);
      forall key: string
        ensures Agrees(limit, expiry, Expiring(limit, expiry, past).0, TimesOf(past, key), key, before)
      {
        assert past != [] ==> AllAgree(limit, expiry, past);
      }
      forall key: string
        ensures Agrees(limit, expiry, Expiring(limit, expiry, events).0, TimesOf(events, key), key, Peak(events))
      {
        EventAgrees(limit, expiry, events, key, before);
      }
      EventAgrees(limit, expiry, events, e.key, before);
    }
  }

  // ---------- no more than that ----------

  const K := "k"

  /** n requests at the same moment. */
  function Burst(n: nat, now: int): (events: seq<Event>)
    ensures |events| == n && forall i | 0 <= i < n :: events[i] == Request(K, now)
  {
    if n == 0 then [] else Burst(n - 1, now) + [Request(K, now)]
  }

  function Repeat<T>(n: nat, x: T): (s: seq<T>)
    ensures |s| == n && forall i | 0 <= i < n :: s[i] == x
  {
    if n == 0 then [] else Repeat(n - 1, x) + [x]
  }

  /** One request for a key, at the time of its last one. */
  lemma OneMore(limit: nat, expiry: int, store: Store, units: int, now: int)
    requires limit > 0 && expiry >= 0 && TOKEN <= units <= Capacity(limit)
    requires K !in store ==> units == Capacity(limit)
    requires K in store ==> store[K] == Bucket(units, now, Deadline(now, expiry))
    ensures Available(limit, store, K, now) == units
    ensures Charged(limit, expiry, store, K, now) == store[K := Bucket(units - TOKEN, now, Deadline(now, expiry))]
  {
    assert limit * 0 == 0;
  }

  lemma AfterRequest(limit: nat, expiry: int, past: seq<Event>, now: int)
    requires limit > 0
    ensures var store := Expiring(limit, expiry, past).0;
            Expiring(limit, expiry, past + [Request(K, now)]) ==
            (Charged(limit, expiry, store, K, now),
             Expiring(limit, expiry, past).1 + [Available(limit, store, K, now) >= TOKEN])
  {
    var events := past + [Request(K, now)];
    assert events[..|events| - 1] == past && events[|events| - 1] == Request(K, now);
  }

  lemma BurstGrows(past: seq<Event>, n: nat, now: int)
    requires n > 0
    ensures past + Burst(n, now) == past + Burst(n - 1, now) + [Request(K, now)]
  {
  }

  /** After n requests of a burst that found the key unknown. */
  ghost predicate InBurst(limit: nat, expiry: int, before: (Store, seq<bool>), after: (Store, seq<bool>), n: nat,
      now: int) {
    && after.1 == before.1 + Repeat(n, true)
    && (n == 0 ==> after.0 == before.0)
    && (n > 0 ==> K in after.0 && after.0[K] == Bucket(Capacity(limit) - n * TOKEN, now, Deadline(now, expiry)))
  }

  lemma BurstStep(limit: nat, expiry: int, before: (Store, seq<bool>), after: (Store, seq<bool>), n: nat, now: int)
    requires limit > 0 && expiry >= 0 && n < limit && K !in before.0 && InBurst(limit, expiry, before, after, n, now)
    ensures var admitted := Available(limit, after.0, K, now) >= TOKEN;
            var next := (Charged(limit, expiry, after.0, K, now), after.1 + [admitted]);
            InBurst(limit, expiry, before, next, n + 1, now)
  {
    OneMore(limit, expiry, after.0, Capacity(limit) - n * TOKEN, now);
    assert before.1 + Repeat(n + 1, true) == before.1 + Repeat(n, true) + [true];
  }

  /** The limiter that forgets admits a whole burst of `limit` requests for a key it does not know. */
  lemma {:induction false} BurstAdmitted(limit: nat, expiry: int, past: seq<Event>, n: nat, now: int)
    requires limit > 0 && expiry >= 0 && n <= limit && K !in Expiring(limit, expiry, past).0
    ensures InBurst(limit, expiry, Expiring(limit, expiry, past), Expiring(limit, expiry, past + Burst(n, now)), n, now)
  {
    if n == 0 {
      assert past + Burst(n, now) == past;
    } else {
      BurstAdmitted(limit, expiry, past, n - 1, now);
      BurstGrows(past, n, now);
      AfterRequest(limit, expiry, past + Burst(n - 1, now), now);
      var shorter := Expiring(limit, expiry, past + Burst(n - 1, now));
      BurstStep(limit, expiry, Expiring(limit, expiry, past), shorter, n - 1, now);
    }
  }

  lemma {:induction false} TimesOfBurst(past: seq<Event>, n: nat, now: int)
    ensures TimesOf(past + Burst(n, now), K) == TimesOf(past, K) + Repeat(n, now)
  {
    if n == 0 {
      assert past + Burst(n, now) == past;
    } else {
      var shorter := past + Burst(n - 1, now);
      TimesOfBurst(past, n - 1, now);
      BurstGrows(past, n, now);
      assert (shorter + [Request(K, now)])[..|shorter|] == shorter;
      assert TimesOf(past, K) + Repeat(n, now) == TimesOf(past, K) + Repeat(n - 1, now) + [now];
    }
  }

  /** With a single key, remembering everything is deciding along its requests. */
  lemma {:induction false} ForeverDecides(limit: nat, events: seq<Event>)
    requires forall i | 0 <= i < |events| :: events[i].key == K
    ensures Forever(limit, events) == Decide(limit, TimesOf(events, K), |TimesOf(events, K)|)
  {
    if events != [] {
      var past, e := events[..|events| - 1], events[|events| - 1];
      ForeverDecides(limit, past);
      var times := TimesOf(past, K);
      if e.Request? {
        DecideOfLonger(limit, times, e.now, |times|);
        assert TimesOf(events, K) == times + [e.now];
        assert Decide(limit, times + [e.now], |times| + 1)[..|times|] == Decide(limit, times + [e.now], |times|);
      } else {
        assert TimesOf(events, K) == times;
      }
    }
  }

  lemma {:induction false} CountOfRepeat(n: nat, m: nat)
    requires m <= n
    ensures Count(Repeat(n, true), 0, m) == m
  {
    if m > 0 {
      CountOfRepeat(n, m - 1);
    }
  }

  const EARLY := 999
  const LATE := EARLY + 60 * SECOND - 1

  /** A drained key is dropped, then the clock falls back to just before a full refill, then comes another burst. */
  function FallBack(limit: nat, expiry: int): seq<Event> {
    Burst(limit, EARLY) + [Sweep(K, expiry * SECOND + 1000)] + Burst(limit, LATE)
  }

  lemma FallBackAdmitsAll(limit: nat, expiry: int)
    requires limit > 0 && expiry >= 0
    ensures Expiring(limit, expiry, FallBack(limit, expiry)).1 == Repeat(limit, true) + Repeat(limit, true)
  {
    var first := Burst(limit, EARLY);
    var swept := first + [Sweep(K, expiry * SECOND + 1000)];
    assert [] + first == first;
    BurstAdmitted(limit, expiry, [], limit, EARLY);
    assert swept[..|swept| - 1] == first;
    assert K !in Expiring(limit, expiry, swept).0;
    BurstAdmitted(limit, expiry, swept, limit, LATE);
    assert Expiring(limit, expiry, swept).1 == Expiring(limit, expiry, first).1 == [] + Repeat(limit, true);
  }

  lemma FallBackTimes(limit: nat, expiry: int)
    ensures TimesOf(FallBack(limit, expiry), K) == Repeat(limit, EARLY) + Repeat(limit, LATE)
  {
    var first := Burst(limit, EARLY);
    var swept := first + [Sweep(K, expiry * SECOND + 1000)];
    assert [] + first == first;
    TimesOfBurst([], limit, EARLY);
    assert swept[..|swept| - 1] == first;
    TimesOfBurst(swept, limit, LATE);
    assert [] + Repeat(limit, EARLY) == Repeat(limit, EARLY);
  }

  lemma FallBackBound(limit: nat)
    requires limit > 0
    ensures var times := Repeat(limit, EARLY) + Repeat(limit, LATE);
            Count(Decide(limit, times, 2 * limit), 0, 2 * limit) < 2 * limit
  {
    var times := Repeat(limit, EARLY) + Repeat(limit, LATE);
    AtMostLimitPerMinute(limit, times, 0, 2 * limit - 1);
  }

  /** Remembered, the bucket cannot serve both bursts. */
  lemma FallBackOverdraws(limit: nat, expiry: int)
    requires limit > 0
    ensures Forever(limit, FallBack(limit, expiry)) != Repeat(limit, true) + Repeat(limit, true)
  {
    FallBackTimes(limit, expiry);
    ForeverDecides(limit, FallBack(limit, expiry));
    FallBackBound(limit);
    CountOfRepeat(2 * limit, 2 * limit);
    assert Repeat(limit, true) + Repeat(limit, true) == Repeat(2 * limit, true);
  }

  /** The tolerance is exact, whatever limit and expiry: forgetting changes no decision on any run whose clock falls
      back by at most `lag` if and only if `lag` is within it. */
  lemma ToleranceExact(limit: nat, expiry: int, lag: int)
    requires limit > 0 && expiry >= 60
    ensures (forall events | FallsAtMost(events, lag) :: Expiring(limit, expiry, events).1 == Forever(limit, events))
       <==> lag <= Tolerance(expiry)
  {
    if lag <= Tolerance(expiry) {
      forall events | FallsAtMost(events, lag) ensures Expiring(limit, expiry, events).1 == Forever(limit, events) {
        ForgettingIsSafe(limit, expiry, events);
      }
    } else {
      ClockGoingBackBreaksIt(limit, expiry, lag);
    }
  }

  /** If the clock may go back further, a forgotten key can be served requests the remembered one would refuse. */
  lemma ClockGoingBackBreaksIt(limit: nat, expiry: int, lag: int)
    requires limit > 0 && expiry >= 60 && lag > Tolerance(expiry)
    ensures FallsAtMost(FallBack(limit, expiry), lag)
    ensures Expiring(limit, expiry, FallBack(limit, expiry)).1 != Forever(limit, FallBack(limit, expiry))
  {
    FallBackAdmitsAll(limit, expiry);
    FallBackOverdraws(limit, expiry);
  }

  /** What the script really sends: its tolerance is ten seconds, or eleven where the expiry rounds up. */
  lemma ScriptToleranceExact(limit: nat, lag: int)
    requires limit > 0
    ensures (forall events | FallsAtMost(events, lag) ::
               Expiring(limit, ExpireSeconds(limit), events).1 == Forever(limit, events))
       <==> lag <= (if RoundsUp(limit) then 11 else 10) * SECOND + 1
  {
    ExpireExact(limit);
    ToleranceExact(limit, ExpireSeconds(limit), lag);
  }
}
