/** The token-bucket rate limiter: one bucket per key, refilled lazily, swept when idle. */
module RateLimiter {
  datatype Config = Config(rate: nat, burst: nat)

  /** Clock readings are nanoseconds of a monotonic clock. */
  const MILLISECOND: int := 1_000_000
  const SECOND: int := 1_000_000_000

  datatype Bucket = Bucket(tokens: real, last: int)

  /** What `buckets_[key]` creates. */
  const BLANK := Bucket(0.0, 0)

  /** Tokens earned in `ns` nanoseconds by the ideal limiter. */
  function Earned(cfg: Config, ns: int): real {
    ns as real / SECOND as real * cfg.rate as real
  }

  function Min(a: real, b: real): real {
    if a < b then a else b
  }

  /** A blank bucket starts full. */
  function Started(cfg: Config, b: Bucket, now: int): Bucket {
    if b.tokens == 0.0 && b.last == 0 then Bucket(cfg.burst as real, now) else b
  }

  /** The refill for a number of whole milliseconds. */
  function Refill(cfg: Config, ms: int): real {
    ms as real / 1000.0 * cfg.rate as real
  }

  /** Whole milliseconds are credited, and only then does the bucket's clock move. */
  function Refilled(cfg: Config, b: Bucket, now: int): Bucket {
    var elapsed := (now - b.last) / MILLISECOND;
    if elapsed > 0
    then Bucket(Min(cfg.burst as real, b.tokens + Refill(cfg, elapsed)), now)
    else b
  }

  function Spend(b: Bucket): (Bucket, bool) {
    if b.tokens >= 1.0 then (b.(tokens := b.tokens - 1.0), true) else (b, false)
  }

  function CheckBucket(cfg: Config, b: Bucket, now: int): (Bucket, bool) {
    Spend(Refilled(cfg, Started(cfg, b, now), now))
  }

  type Buckets = map<string, Bucket>

  function BucketOf(m: Buckets, key: string): Bucket {
    if key in m then m[key] else BLANK
  }

  function Check(cfg: Config, m: Buckets, key: string, now: int): (Buckets, bool) {
    var (b, ok) := CheckBucket(cfg, BucketOf(m, key), now);
    (m[key := b], ok)
  }

  predicate Stale(b: Bucket, now: int, maxAge: nat) {
    (now - b.last) / SECOND > maxAge
  }

  function Cleanup(m: Buckets, now: int, maxAge: nat): Buckets {
    map key | key in m && !Stale(m[key], now, maxAge) :: m[key]
  }

  class Limiter {
    const config: Config
    var buckets: Buckets

    constructor (cfg: Config)
      ensures config == cfg && buckets == map[]
    {
      config := cfg;
      buckets := map[];
    }

    method CheckKey(key: string, now: int) returns (ok: bool)
      modifies this
      ensures (buckets, ok) == Check(config, old(buckets), key, now)
    {
      hide Refill, Min;
      var b := if key in buckets then buckets[key] else BLANK;
      if b.tokens == 0.0 && b.last == 0 {
        b := Bucket(config.burst as real, now);
      }
      var elapsed := (now - b.last) / MILLISECOND;
      if elapsed > 0 {
        b := Bucket(Min(config.burst as real, b.tokens + Refill(config, elapsed)), now);
      }
      ok := b.tokens >= 1.0;
      if ok {
        b := b.(tokens := b.tokens - 1.0);
      }
      buckets := buckets[key := b];
    }

    /** Erase while iterating, in the map's order. */
    method Sweep(now: int, maxAge: nat)
      modifies this
      ensures buckets == Cleanup(old(buckets), now, maxAge)
    {
      hide Stale;
      var todo := buckets.Keys;
      while todo != {}
        invariant todo <= buckets.Keys <= old(buckets).Keys
        invariant forall k | k in buckets :: buckets[k] == old(buckets)[k]
        invariant forall k | k in old(buckets) && k !in todo :: k in buckets <==> !Stale(old(buckets)[k], now, maxAge)
        decreases |todo|
      {
        var k :| k in todo;
        if Stale(buckets[k], now, maxAge) {
          buckets := buckets - {k};
        }
        todo := todo - {k};
      }
    }
  }

  // ---- earning ---------------------------------------------------------------------------

  lemma {:induction false} EarnedAdds(cfg: Config, a: int, b: int)
    ensures Earned(cfg, a + b) == Earned(cfg, a) + Earned(cfg, b)
  {
    var s, r := SECOND as real, cfg.rate as real;
    assert (a + b) as real / s == a as real / s + b as real / s;
  }

  lemma {:induction false} EarnedGrows(cfg: Config, a: int, b: int)
    requires a <= b
    ensures Earned(cfg, a) <= Earned(cfg, b)
  {
    EarnedAdds(cfg, a, b - a);
  }

  /** The refill of a check is what the ideal limiter earns in the whole milliseconds. */
  lemma {:induction false} RefillIsEarned(cfg: Config, ms: int)
    ensures Refill(cfg, ms) == Earned(cfg, ms * MILLISECOND)
  {
    assert ms as real / 1000.0 == (ms * MILLISECOND) as real / SECOND as real;
  }

  /** A bucket that has been checked before, as seen at time `now`. */
  predicate InUse(cfg: Config, b: Bucket, now: int) {
    0.0 <= b.tokens <= cfg.burst as real && 0 < b.last <= now
  }

  /** Refilling never credits more than was earned, and loses less than a millisecond. */
  lemma {:induction false} RefillBound(cfg: Config, b: Bucket, now: int)
    requires InUse(cfg, b, now)
    ensures var r := Refilled(cfg, b, now);
      && InUse(cfg, r, now) && b.last <= r.last && now - r.last < MILLISECOND
      && r.tokens <= b.tokens + Earned(cfg, r.last - b.last)
      && b.tokens <= r.tokens
  {
    hide Earned, Refill;
    var ms := (now - b.last) / MILLISECOND;
    assert 0 <= ms * MILLISECOND <= now - b.last < (ms + 1) * MILLISECOND;
    RefillIsEarned(cfg, ms);
    EarnedGrows(cfg, 0, ms * MILLISECOND);
    EarnedGrows(cfg, ms * MILLISECOND, now - b.last);
    EarnedNothing(cfg);
  }

  lemma {:induction false} EarnedNothing(cfg: Config)
    ensures Earned(cfg, 0) == 0.0
  {
  }

  /** Truncation to milliseconds still credits more than half of what was earned, up to the cap. */
  lemma {:induction false} MoreThanHalfCredited(cfg: Config, b: Bucket, now: int)
    requires InUse(cfg, b, now) && cfg.rate > 0
    ensures var r := Refilled(cfg, b, now);
      || r == b
      || r.tokens == cfg.burst as real
      || 2.0 * (r.tokens - b.tokens) > Earned(cfg, r.last - b.last)
  {
    hide Earned, Refill;
    var ms := (now - b.last) / MILLISECOND;
    if ms > 0 {
      RefillIsEarned(cfg, ms);
      EarnedAdds(cfg, ms * MILLISECOND, ms * MILLISECOND);
      EarnedMore(cfg, now - b.last, 2 * ms * MILLISECOND);
    }
  }

  lemma {:induction false} EarnedMore(cfg: Config, a: int, b: int)
    requires a < b && cfg.rate > 0
    ensures Earned(cfg, a) < Earned(cfg, b)
  {
    EarnedAdds(cfg, a, b - a);
  }

  // ---- one bucket over a run -------------------------------------------------------------

  /** The checks of one key: final bucket and number of allowed checks. */
  function CheckAll(cfg: Config, b: Bucket, times: seq<int>): (Bucket, nat) {
    if times == [] then (b, 0)
    else
      var (b1, n) := CheckAll(cfg, b, times[..|times| - 1]);
      var (b2, ok) := CheckBucket(cfg, b1, times[|times| - 1]);
      (b2, if ok then n + 1 else n)
  }

  predicate Ordered(times: seq<int>) {
    forall i, j | 0 <= i < j < |times| :: times[i] <= times[j]
  }

  /** Tokens are conserved: what was allowed plus what is left is at most what was there plus what was earned. */
  lemma {:induction false} Conservation(cfg: Config, b: Bucket, times: seq<int>)
    requires Ordered(times) && times != [] && InUse(cfg, b, times[0])
    ensures var (b', n) := CheckAll(cfg, b, times);
      && InUse(cfg, b', times[|times| - 1]) && b.last <= b'.last
      && n as real + b'.tokens <= b.tokens + Earned(cfg, b'.last - b.last)
    decreases |times|
  {
    hide Earned, Refilled;
    var k := |times| - 1;
    var now := times[k];
    if k == 0 {
      assert CheckAll(cfg, b, times[..0]) == (b, 0);
      RefillBound(cfg, b, now);
    } else {
      Conservation(cfg, b, times[..k]);
      var b1 := CheckAll(cfg, b, times[..k]).0;
      RefillBound(cfg, b1, now);
      EarnedAdds(cfg, b1.last - b.last, Refilled(cfg, b1, now).last - b1.last);
    }
  }

  /** Refilling first and then running the checks is the same as running the checks. */
  lemma {:induction false} RefillFirst(cfg: Config, b: Bucket, times: seq<int>)
    requires times != [] && (b == BLANK || InUse(cfg, b, times[0])) && times[0] > 0
    ensures CheckAll(cfg, b, times) == CheckAll(cfg, Refilled(cfg, Started(cfg, b, times[0]), times[0]), times)
    ensures InUse(cfg, Refilled(cfg, Started(cfg, b, times[0]), times[0]), times[0])
    decreases |times|
  {
    hide Earned, Refilled;
    var k := |times| - 1;
    var b1 := Refilled(cfg, Started(cfg, b, times[0]), times[0]);
    RefillBound(cfg, Started(cfg, b, times[0]), times[0]);
    if k == 0 {
      RefilledOnce(cfg, b1, times[0]);
      assert times[..0] == [];
      assert CheckAll(cfg, b, times[..0]) == (b, 0) && CheckAll(cfg, b1, times[..0]) == (b1, 0);
    } else {
      RefillFirst(cfg, b, times[..k]);
    }
  }

  lemma {:induction false} RefilledOnce(cfg: Config, b: Bucket, now: int)
    requires now - b.last < MILLISECOND
    ensures Refilled(cfg, b, now) == b
  {
  }

  /** In a window, at most the burst is allowed plus what is earned in the window and one millisecond. */
  lemma {:induction false} WindowBound(cfg: Config, b: Bucket, times: seq<int>)
    requires Ordered(times) && times != [] && times[0] > 0 && (b == BLANK || InUse(cfg, b, times[0]))
    ensures CheckAll(cfg, b, times).1 as real
         <= cfg.burst as real + Earned(cfg, times[|times| - 1] - times[0] + MILLISECOND)
  {
    hide Earned, Refilled, CheckAll;
    RefillFirst(cfg, b, times);
    var b0 := Started(cfg, b, times[0]);
    var b1 := Refilled(cfg, b0, times[0]);
    RefillBound(cfg, b0, times[0]);
    Conservation(cfg, b1, times);
    var b2 := CheckAll(cfg, b1, times).0;
    EarnedGrows(cfg, b2.last - b1.last, times[|times| - 1] - times[0] + MILLISECOND);
  }

  /** Checks that are far enough apart to earn a token each, in whole milliseconds. */
  ghost predicate Paced(cfg: Config, times: seq<int>, gap: nat) {
    && gap > 0 && gap * cfg.rate >= 1000
    && forall i | 0 < i < |times| :: times[i] >= times[i - 1] + gap * MILLISECOND
  }

  /** Who keeps the pace is never refused. */
  lemma {:induction false} PacedIsAllowed(cfg: Config, times: seq<int>, gap: nat)
    requires cfg.burst >= 1 && Paced(cfg, times, gap) && times != [] && times[0] > 0
    ensures var (b, n) := CheckAll(cfg, BLANK, times);
      n == |times| && b.last == times[|times| - 1] >= times[0] && 0.0 <= b.tokens <= cfg.burst as real
    decreases |times|
  {
    hide Earned, Refill;
    var k := |times| - 1;
    if k == 0 {
      assert times[..0] == [] && CheckAll(cfg, BLANK, times[..0]) == (BLANK, 0);
      RefilledOnce(cfg, Bucket(cfg.burst as real, times[0]), times[0]);
    } else {
      PacedIsAllowed(cfg, times[..k], gap);
      var b := CheckAll(cfg, BLANK, times[..k]).0;
      var ms := (times[k] - b.last) / MILLISECOND;
      assert ms >= gap;
      EnoughForOne(cfg, gap, ms);
    }
  }

  lemma {:induction false} EnoughForOne(cfg: Config, gap: nat, ms: int)
    requires gap <= ms && gap * cfg.rate >= 1000
    ensures Refill(cfg, ms) >= 1.0
  {
    var r := cfg.rate as real;
    assert (gap * cfg.rate) as real == gap as real * r;
    Scaled(gap as real, ms as real, r);
    assert ms as real * r >= 1000.0;
    assert ms as real / 1000.0 * r == ms as real * r / 1000.0;
  }

  lemma {:induction false} Scaled(x: real, y: real, r: real)
    requires x <= y && r >= 0.0
    ensures x * r <= y * r
  {
  }

  // ---- all keys over a run ---------------------------------------------------------------

  datatype Event = Checked(key: string, now: int) | Cleaned(now: int)

  function Step(cfg: Config, maxAge: nat, m: Buckets, e: Event): (Buckets, seq<bool>) {
    match e
    case Checked(key, now) => var (m', ok) := Check(cfg, m, key, now); (m', [ok])
    case Cleaned(now) => (Cleanup(m, now, maxAge), [])
  }

  /** The final buckets, and the answers of the checks in order. */
  function Run(cfg: Config, maxAge: nat, m: Buckets, events: seq<Event>): (Buckets, seq<bool>) {
    if events == [] then (m, [])
    else
      var (m1, out1) := Run(cfg, maxAge, m, events[..|events| - 1]);
      var (m2, out2) := Step(cfg, maxAge, m1, events[|events| - 1]);
      (m2, out1 + out2)
  }

  /** The clock does not run backwards, and its readings are positive. */
  ghost predicate Clocked(events: seq<Event>) {
    && (forall e | e in events :: e.now > 0)
    && forall i, j | 0 <= i < j < |events| :: events[i].now <= events[j].now
  }

  function WithoutCleanups(events: seq<Event>): seq<Event> {
    if events == [] then []
    else
      var n := |events| - 1;
      WithoutCleanups(events[..n]) + (if events[n].Cleaned? then [] else [events[n]])
  }

  function TimesOf(events: seq<Event>, key: string): seq<int> {
    if events == [] then []
    else
      var n := |events| - 1;
      TimesOf(events[..n], key) + (if events[n].Checked? && events[n].key == key then [events[n].now] else [])
  }

  /** How many checks of `key` a run allows. */
  function AllowedFor(cfg: Config, maxAge: nat, m: Buckets, events: seq<Event>, key: string): nat {
    if events == [] then 0
    else
      var n := |events| - 1;
      AllowedFor(cfg, maxAge, m, events[..n], key)
      + (if events[n].Checked? && events[n].key == key
            && Check(cfg, Run(cfg, maxAge, m, events[..n]).0, key, events[n].now).1 then 1 else 0)
  }

  /** Without cleanups the keys do not disturb each other. */
  lemma {:induction false} KeysAreIndependent(cfg: Config, maxAge: nat, m: Buckets, events: seq<Event>, key: string)
    requires forall e | e in events :: e.Checked?
    ensures (BucketOf(Run(cfg, maxAge, m, events).0, key), AllowedFor(cfg, maxAge, m, events, key))
         == CheckAll(cfg, BucketOf(m, key), TimesOf(events, key))
    decreases |events|
  {
    hide CheckBucket;
    if events != [] {
      var n := |events| - 1;
      assert events[n] in events;
      forall e | e in events[..n] ensures e.Checked? {
        assert e in events;
      }
      KeysAreIndependent(cfg, maxAge, m, events[..n], key);
      var times := TimesOf(events[..n], key);
      if events[n].key == key {
        assert TimesOf(events, key)[..|times|] == times;
      } else {
        assert TimesOf(events, key) == times;
      }
    }
  }

  ghost predicate Within(times: seq<int>, from: int, end: int) {
    Ordered(times) && forall i | 0 <= i < |times| :: from <= times[i] <= end
  }

  lemma {:induction false} TimesWithin(events: seq<Event>, key: string, from: int, end: int)
    requires forall i, j | 0 <= i < j < |events| :: events[i].now <= events[j].now
    requires forall e | e in events :: from <= e.now <= end
    ensures Within(TimesOf(events, key), from, end)
    decreases |events|
  {
    if events != [] {
      var n := |events| - 1;
      assert events[n] in events;
      forall e | e in events[..n] ensures from <= e.now <= events[n].now {
        var i :| 0 <= i < n && events[i] == e;
      }
      TimesWithin(events[..n], key, from, events[n].now);
    }
  }

  lemma {:induction false} TokensStayInRange(cfg: Config, b: Bucket, times: seq<int>, now: int)
    requires Within(times, 1, now) && b == BLANK
    ensures var b' := CheckAll(cfg, b, times).0; b' == BLANK || InUse(cfg, b', now)
  {
    hide Earned, Refilled;
    if times != [] {
      RefillFirst(cfg, b, times);
      Conservation(cfg, Refilled(cfg, Started(cfg, b, times[0]), times[0]), times);
    }
  }

  /**
   The bound over runs: after any checks of any keys, a window of length `w` allows a key at most
   `burst + rate * (w + 1 ms)` checks.
   */
  lemma {:induction false} RateBound(cfg: Config, maxAge: nat, before: seq<Event>, window: seq<Event>, key: string,
                                     start: int, w: nat)
    requires Clocked(before + window) && forall e | e in before + window :: e.Checked?
    requires forall e | e in window :: start <= e.now <= start + w
    ensures AllowedFor(cfg, maxAge, Run(cfg, maxAge, map[], before).0, window, key) as real
         <= cfg.burst as real + Earned(cfg, w + MILLISECOND)
  {
    hide Earned, CheckAll, TimesOf, AllowedFor, Run;
    var m := Run(cfg, maxAge, map[], before).0;
    var all := before + window;
    forall e | e in window ensures e in all {
    }
    forall e | e in before ensures e in all {
    }
    KeysAreIndependent(cfg, maxAge, m, window, key);
    KeysAreIndependent(cfg, maxAge, map[], before, key);
    forall i, j | 0 <= i < j < |window| ensures window[i].now <= window[j].now {
      assert all[|before| + i].now <= all[|before| + j].now;
    }
    TimesWithin(window, key, start, start + w);
    var times := TimesOf(window, key);
    EarnedGrows(cfg, 0, w + MILLISECOND);
    EarnedNothing(cfg);
    if times != [] {
      FirstIsLater(before, window, key);
      TokensStayInRange(cfg, BLANK, TimesOf(before, key), times[0]);
      WindowBound(cfg, BucketOf(m, key), times);
      EarnedGrows(cfg, times[|times| - 1] - times[0] + MILLISECOND, w + MILLISECOND);
    } else {
      NoChecks(cfg, BucketOf(m, key));
    }
  }

  lemma {:induction false} NoChecks(cfg: Config, b: Bucket)
    ensures CheckAll(cfg, b, []) == (b, 0)
  {
  }

  /** The checks before a window happened before its first check. */
  lemma {:induction false} FirstIsLater(before: seq<Event>, window: seq<Event>, key: string)
    requires Clocked(before + window) && TimesOf(window, key) != []
    ensures Within(TimesOf(before, key), 1, TimesOf(window, key)[0])
    ensures TimesOf(window, key)[0] > 0
  {
    hide TimesOf;
    var all := before + window;
    var k := FirstCheck(window, key);
    assert all[|before| + k] == window[k];
    assert all[|before| + k] in all;
    forall i, j | 0 <= i < j < |before| ensures before[i].now <= before[j].now {
      assert all[i].now <= all[j].now;
    }
    forall e | e in before ensures 1 <= e.now <= window[k].now {
      var i :| 0 <= i < |before| && before[i] == e;
      assert all[i] in all && all[i].now <= all[|before| + k].now;
    }
    TimesWithin(before, key, 1, window[k].now);
  }

  lemma {:induction false} FirstCheck(events: seq<Event>, key: string) returns (k: nat)
    requires TimesOf(events, key) != []
    ensures k < |events| && events[k].now == TimesOf(events, key)[0]
    decreases |events|
  {
    var n := |events| - 1;
    if TimesOf(events[..n], key) == [] {
      k := n;
    } else {
      k := FirstCheck(events[..n], key);
    }
  }

  // ---- eviction --------------------------------------------------------------------------

  /** A run with cleanups (`a`) beside the same run without (`b`): what is missing would be full by now. */
  ghost predicate Agree(cfg: Config, maxAge: nat, a: Buckets, b: Buckets, now: int) {
    && (forall k | k in a :: k in b && a[k] == b[k])
    && (forall k | k in b :: InUse(cfg, b[k], now))
    && (forall k | k in b && k !in a :: b[k].last + (maxAge + 1) * SECOND <= now)
  }

  lemma {:induction false} EarnedInSeconds(cfg: Config, n: nat)
    ensures Earned(cfg, n * SECOND) == (n * cfg.rate) as real
  {
    assert (n * SECOND) as real / SECOND as real == n as real;
  }

  /** A bucket that old is full again, exactly like a new one. */
  lemma {:induction false} OldIsFull(cfg: Config, maxAge: nat, b: Bucket, now: int)
    requires cfg.burst <= (maxAge + 1) * cfg.rate && InUse(cfg, b, now) && b.last + (maxAge + 1) * SECOND <= now
    ensures CheckBucket(cfg, b, now) == CheckBucket(cfg, BLANK, now)
  {
    hide Earned, Refill;
    var ms := (now - b.last) / MILLISECOND;
    assert ms >= (maxAge + 1) * 1000;
    RefillIsEarned(cfg, ms);
    EarnedInSeconds(cfg, maxAge + 1);
    EarnedGrows(cfg, (maxAge + 1) * SECOND, ms * MILLISECOND);
    assert Refilled(cfg, b, now) == Bucket(cfg.burst as real, now);
  }

  lemma {:induction false} CheckedInUse(cfg: Config, b: Bucket, now: int)
    requires now > 0 && (b == BLANK || InUse(cfg, b, now))
    ensures InUse(cfg, CheckBucket(cfg, b, now).0, now)
  {
    hide Refilled, Earned;
    RefillBound(cfg, Started(cfg, b, now), now);
  }

  lemma {:induction false} AgreeStep(cfg: Config, maxAge: nat, a: Buckets, b: Buckets, now: int, e: Event)
    requires cfg.burst <= (maxAge + 1) * cfg.rate && Agree(cfg, maxAge, a, b, now) && e.now > 0 && now <= e.now
    ensures e.Checked? ==> Step(cfg, maxAge, a, e).1 == Step(cfg, maxAge, b, e).1
    ensures Agree(cfg, maxAge, Step(cfg, maxAge, a, e).0, if e.Checked? then Step(cfg, maxAge, b, e).0 else b, e.now)
  {
    hide CheckBucket;
    if e.Checked? {
      CheckedInUse(cfg, BucketOf(b, e.key), e.now);
      if e.key in b && e.key !in a {
        OldIsFull(cfg, maxAge, b[e.key], e.now);
      }
    }
  }

  lemma {:induction false} EvictionIsTransparent(cfg: Config, maxAge: nat, events: seq<Event>)
    requires cfg.burst <= (maxAge + 1) * cfg.rate && Clocked(events)
    ensures Run(cfg, maxAge, map[], events).1 == Run(cfg, maxAge, map[], WithoutCleanups(events)).1
    ensures Agree(cfg, maxAge, Run(cfg, maxAge, map[], events).0, Run(cfg, maxAge, map[], WithoutCleanups(events)).0,
                  if events == [] then 0 else events[|events| - 1].now)
    decreases |events|
  {
    hide Step;
    if events != [] {
      var n := |events| - 1;
      EvictionIsTransparent(cfg, maxAge, events[..n]);
      var a := Run(cfg, maxAge, map[], events[..n]).0;
      var rest := WithoutCleanups(events[..n]);
      var b := Run(cfg, maxAge, map[], rest).0;
      AgreeStep(cfg, maxAge, a, b, if n == 0 then 0 else events[n - 1].now, events[n]);
      if events[n].Cleaned? {
        CleanupSaysNothing(cfg, maxAge, a, events[n]);
        assert rest + [] == rest;
      } else {
        assert (rest + [events[n]])[..|rest|] == rest;
      }
    }
  }

  lemma {:induction false} CleanupSaysNothing(cfg: Config, maxAge: nat, m: Buckets, e: Event)
    requires e.Cleaned?
    ensures Step(cfg, maxAge, m, e).1 == []
  {
  }

  // ---- and only then ---------------------------------------------------------------------

  function Repeat(key: string, now: int, n: nat): seq<Event> {
    seq(n, _ => Checked(key, now))
  }

  /** Repeated checks at one instant drain the bucket token by token. */
  lemma {:induction false} Drain(cfg: Config, maxAge: nat, m: Buckets, key: string, now: int, c: nat, n: nat)
    requires now > 0 && Refilled(cfg, Started(cfg, BucketOf(m, key), now), now) == Bucket(c as real, now)
    ensures var (m', out) := Run(cfg, maxAge, m, Repeat(key, now, n));
      && |out| == n && (forall i | 0 <= i < n :: out[i] <==> i < c)
      && (n > 0 ==> BucketOf(m', key) == Bucket(if n <= c then (c - n) as real else 0.0, now))
      && (m == map[] ==> m'.Keys <= {key})
    decreases n
  {
    if n > 0 {
      assert Repeat(key, now, n)[..n - 1] == Repeat(key, now, n - 1);
      Drain(cfg, maxAge, m, key, now, c, n - 1);
      if n > 1 {
        RefilledOnce(cfg, BucketOf(Run(cfg, maxAge, m, Repeat(key, now, n - 1)).0, key), now);
      }
    }
  }

  lemma {:induction false} RunConcat(cfg: Config, maxAge: nat, m: Buckets, a: seq<Event>, b: seq<Event>)
    ensures var (m1, out1) := Run(cfg, maxAge, m, a); var (m2, out2) := Run(cfg, maxAge, m1, b);
      Run(cfg, maxAge, m, a + b) == (m2, out1 + out2)
    decreases |b|
  {
    hide Step;
    if b == [] {
      assert a + b == a;
      var out := Run(cfg, maxAge, m, a).1;
      assert out + [] == out;
    } else {
      var n := |b| - 1;
      assert (a + b)[..|a| + n] == a + b[..n];
      RunConcat(cfg, maxAge, m, a, b[..n]);
      var (m1, out1) := Run(cfg, maxAge, m, a);
      var (m2, out2) := Run(cfg, maxAge, m1, b[..n]);
      var last := Step(cfg, maxAge, m2, b[n]).1;
      assert out1 + out2 + last == out1 + (out2 + last);
    }
  }

  lemma {:induction false} ChecksRemain(key: string, now: int, n: nat)
    ensures WithoutCleanups(Repeat(key, now, n)) == Repeat(key, now, n)
    decreases n
  {
    if n > 0 {
      assert Repeat(key, now, n)[..n - 1] == Repeat(key, now, n - 1);
      ChecksRemain(key, now, n - 1);
    }
  }

  lemma {:induction false} WithoutConcat(a: seq<Event>, b: seq<Event>)
    ensures WithoutCleanups(a + b) == WithoutCleanups(a) + WithoutCleanups(b)
    decreases |b|
  {
    if b == [] {
      assert a + b == a;
    } else {
      var n := |b| - 1;
      assert (a + b)[..|a| + n] == a + b[..n];
      WithoutConcat(a, b[..n]);
    }
  }

  /** Drain the burst, wait until the sweep just reaches the bucket, sweep, and ask for the burst again. */
  function Later(maxAge: nat): int {
    1 + (maxAge + 1) * SECOND
  }

  function DrainSweepDrain(cfg: Config, maxAge: nat, key: string): seq<Event> {
    Repeat(key, 1, cfg.burst) + [Cleaned(Later(maxAge))] + Repeat(key, Later(maxAge), cfg.burst)
  }

  lemma {:induction false} SweptAnswers(cfg: Config, maxAge: nat, key: string)
    requires cfg.burst > 0
    ensures var out := Run(cfg, maxAge, map[], DrainSweepDrain(cfg, maxAge, key)).1;
      |out| == 2 * cfg.burst && out[2 * cfg.burst - 1]
  {
    hide Run;
    var first, again := Repeat(key, 1, cfg.burst), Repeat(key, Later(maxAge), cfg.burst);
    var sweep := [Cleaned(Later(maxAge))];
    Drain(cfg, maxAge, map[], key, 1, cfg.burst, cfg.burst);
    var m := Run(cfg, maxAge, map[], first).0;
    RunConcat(cfg, maxAge, map[], first, sweep);
    SweepRun(cfg, maxAge, m, Later(maxAge));
    assert Cleanup(m, Later(maxAge), maxAge) == map[];
    RunConcat(cfg, maxAge, map[], first + sweep, again);
    Drain(cfg, maxAge, map[], key, Later(maxAge), cfg.burst, cfg.burst);
  }

  lemma {:induction false} SweepRun(cfg: Config, maxAge: nat, m: Buckets, now: int)
    ensures Run(cfg, maxAge, m, [Cleaned(now)]) == (Cleanup(m, now, maxAge), [])
  {
    assert [Cleaned(now)][..0] == [];
    assert Run(cfg, maxAge, m, [Cleaned(now)][..0]) == (m, []);
    var none: seq<bool> := [];
    assert none + none == none;
  }

  lemma {:induction false} UnsweptAnswers(cfg: Config, maxAge: nat, key: string)
    requires cfg.burst > (maxAge + 1) * cfg.rate
    ensures var out := Run(cfg, maxAge, map[], WithoutCleanups(DrainSweepDrain(cfg, maxAge, key))).1;
      |out| == 2 * cfg.burst && !out[2 * cfg.burst - 1]
  {
    hide Run, Earned;
    var first, again := Repeat(key, 1, cfg.burst), Repeat(key, Later(maxAge), cfg.burst);
    var sweep := [Cleaned(Later(maxAge))];
    WithoutConcat(first, sweep);
    WithoutConcat(first + sweep, again);
    ChecksRemain(key, 1, cfg.burst);
    ChecksRemain(key, Later(maxAge), cfg.burst);
    assert WithoutCleanups(sweep) == [] by {
      assert sweep[..0] == [];
    }
    assert WithoutCleanups(DrainSweepDrain(cfg, maxAge, key)) == first + again;
    Drain(cfg, maxAge, map[], key, 1, cfg.burst, cfg.burst);
    RunConcat(cfg, maxAge, map[], first, again);
    RefilledLater(cfg, maxAge);
    Drain(cfg, maxAge, Run(cfg, maxAge, map[], first).0, key, Later(maxAge), (maxAge + 1) * cfg.rate, cfg.burst);
  }

  lemma {:induction false} RefilledLater(cfg: Config, maxAge: nat)
    requires cfg.burst > (maxAge + 1) * cfg.rate
    ensures Refilled(cfg, Bucket(0.0, 1), Later(maxAge)) == Bucket(((maxAge + 1) * cfg.rate) as real, Later(maxAge))
  {
    hide Earned, Refill;
    var ms := (maxAge + 1) * 1000;
    assert Later(maxAge) - 1 == ms * MILLISECOND;
    RefillIsEarned(cfg, ms);
    EarnedInSeconds(cfg, maxAge + 1);
  }

  /**
   Cleaning up idle buckets never changes an answer, whatever the run, exactly when an idle bucket
   refills completely within the age at which it is swept (301 seconds by default).
   */
  lemma {:induction false} EvictionTransparencyExactly(cfg: Config, maxAge: nat)
    ensures cfg.burst <= (maxAge + 1) * cfg.rate
       <==> forall events | Clocked(events) ::
              Run(cfg, maxAge, map[], events).1 == Run(cfg, maxAge, map[], WithoutCleanups(events)).1
  {
    hide Run, WithoutCleanups, Clocked;
    if cfg.burst <= (maxAge + 1) * cfg.rate {
      forall events | Clocked(events)
        ensures Run(cfg, maxAge, map[], events).1 == Run(cfg, maxAge, map[], WithoutCleanups(events)).1
      {
        EvictionIsTransparent(cfg, maxAge, events);
      }
    } else {
      var events := DrainSweepDrain(cfg, maxAge, "");
      assert cfg.burst > 0;
      SweptAnswers(cfg, maxAge, "");
      UnsweptAnswers(cfg, maxAge, "");
      DrainIsClocked(cfg, maxAge, "");
    }
  }

  lemma {:induction false} DrainIsClocked(cfg: Config, maxAge: nat, key: string)
    ensures Clocked(DrainSweepDrain(cfg, maxAge, key))
  {
    var events := DrainSweepDrain(cfg, maxAge, key);
    assert forall i | 0 <= i < |events| :: events[i].now == if i < cfg.burst then 1 else Later(maxAge);
  }
}
