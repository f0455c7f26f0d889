/** queue/rate_limiter.py: the Lua token bucket, over exact reals and a clock that does not run backwards. */
module TokenBucket {

  datatype Limits = Limits(size: real, rate: real)

  ghost predicate Valid(l: Limits) {
    l.size >= 0.0 && l.rate > 0.0
  }

  /** The fields of a bucket's hash; Absent when the key does not exist. */
  datatype Cell = Absent | Present(tokens: real, last: real)

  datatype Reply = Reply(allowed: bool, remaining: int, retryMs: int)

  function Min(a: real, b: real): real { if a <= b then a else b }

  function Ceil(x: real): (n: int)
    ensures n as real - 1.0 < x <= n as real
  {
    -((-x).Floor)
  }

  function Refill(l: Limits, since: real, now: real): real {
    (now - since) * l.rate
  }

  lemma RefillAdds(l: Limits, a: real, b: real, c: real)
    ensures Refill(l, a, c) == Refill(l, a, b) + Refill(l, b, c)
  {
  }

  lemma RefillIsPositive(l: Limits, a: real, b: real)
    requires Valid(l) && a <= b
    ensures Refill(l, a, b) >= 0.0
  {
  }

  /** Tokens available to a call at time now. */
  function Level(l: Limits, c: Cell, now: real): real {
    match c
    case Absent => l.size
    case Present(tokens, last) => Min(l.size, tokens + Refill(l, last, now))
  }

  function RetryMs(l: Limits, tokens: real): int
    requires Valid(l)
  {
    Ceil((1.0 - tokens) / l.rate * 1000.0)
  }

  /** Twice the time an empty bucket takes to fill. */
  function TwiceFill(l: Limits): real
    requires Valid(l)
  {
    l.size / l.rate * 2.0
  }

  /** Time to live of the key after every call, in whole seconds. */
  function Ttl(l: Limits): int
    requires Valid(l)
  {
    Ceil(TwiceFill(l))
  }

  predicate Admits(l: Limits, c: Cell, now: real) {
    Level(l, c, now) >= 1.0
  }

  /** One call on a bucket that never expires: what it leaves behind. */
  function Next(l: Limits, c: Cell, now: real): Cell {
    Present(if Admits(l, c, now) then Level(l, c, now) - 1.0 else Level(l, c, now), now)
  }

  /** One call on a bucket that never expires: what it answers. */
  function Answer(l: Limits, c: Cell, now: real): Reply
    requires Valid(l)
  {
    if Admits(l, c, now) then Reply(true, (Level(l, c, now) - 1.0).Floor, 0)
    else Reply(false, Level(l, c, now).Floor, RetryMs(l, Level(l, c, now)))
  }

  /** The caller is let through. */
  predicate Grants(l: Limits, c: Cell, now: real)
    requires Valid(l)
  {
    Answer(l, c, now).allowed
  }

  /**
   The three answers: allowed exactly when a token is there, and then with no wait; a denial names a wait. What is
   reported as remaining is what the call leaves behind, rounded down.
   */
  lemma AnswersMean(l: Limits, c: Cell, now: real)
    requires Valid(l)
    ensures var r := Answer(l, c, now);
      && (r.allowed <==> Level(l, c, now) >= 1.0)
      && (r.allowed <==> Level(l, Next(l, c, now), now) == Level(l, c, now) - 1.0)
      && (if r.allowed then r.retryMs == 0 else r.retryMs >= 1)
      && r.remaining as real <= Level(l, Next(l, c, now), now) < r.remaining as real + 1.0
  {
    if !Answer(l, c, now).allowed {
      var missing := 1.0 - Level(l, c, now);
      assert missing / l.rate * l.rate == missing;
      assert missing / l.rate > 0.0;
    }
  }

  /** A stored hash with the moment its key expires. */
  datatype Stored = Stored(tokens: real, last: real, expireAt: real)

  /** What HMGET sees of a stored hash at time now. */
  function Visible(hashes: map<string, Stored>, key: string, now: real): Cell {
    if key in hashes && now < hashes[key].expireAt then Present(hashes[key].tokens, hashes[key].last) else Absent
  }

  class TokenBucketRateLimiter {
    const limits: Limits
    const keyPrefix: string
    var hashes: map<string, Stored>

    constructor (limits: Limits, keyPrefix: string)
      requires Valid(limits)
      ensures this.limits == limits && this.keyPrefix == keyPrefix && hashes == map[]
    {
      this.limits := limits;
      this.keyPrefix := keyPrefix;
      hashes := map[];
    }

    function BucketKey(apiKey: string): string {
      keyPrefix + ":" + apiKey
    }

    /** The script, statement by statement, and the decoding of its reply. */
    method TryConsume(apiKey: string, now: real) returns (allowed: bool, remaining: real, retryAfter: real)
      requires Valid(limits)
      modifies this
      ensures var key := BucketKey(apiKey);
        var cell := Next(limits, Visible(old(hashes), key, now), now);
        var reply := Answer(limits, Visible(old(hashes), key, now), now);
        && hashes == old(hashes)[key := Stored(cell.tokens, cell.last, now + Ttl(limits) as real)]
        && allowed == reply.allowed && remaining == reply.remaining as real
        && retryAfter == reply.retryMs as real / 1000.0
      ensures var level := Level(limits, Visible(old(hashes), BucketKey(apiKey), now), now);
        (allowed <==> level >= 1.0) && (retryAfter > 0.0 <==> level < 1.0)
    {
      AnswersMean(limits, Visible(hashes, BucketKey(apiKey), now), now);
      var key := BucketKey(apiKey);
      var tokens, last := limits.size, now;
      var data := Visible(hashes, key, now);
      if data.Present? {
        tokens, last := data.tokens, data.last;
      }
      var elapsed := now - last;
      tokens := Min(limits.size, tokens + elapsed * limits.rate);
      last := now;
      assert tokens == Level(limits, data, now);
      allowed := false;
      if tokens >= 1.0 {
        tokens := tokens - 1.0;
        allowed := true;
      }
      hashes := hashes[key := Stored(tokens, last, now + Ttl(limits) as real)];
      var retryAfterMs := 0;
      if !allowed {
        retryAfterMs := RetryMs(limits, tokens);
      }
      remaining, retryAfter := tokens.Floor as real, retryAfterMs as real / 1000.0;
    }
  }

  /** A call for one key leaves every other key's bucket alone. */
  lemma KeysAreIndependent(r: TokenBucketRateLimiter, a: string, b: string)
    ensures r.BucketKey(a) == r.BucketKey(b) <==> a == b
  {
    var p := r.keyPrefix + ":";
    assert (p + a)[|p|..] == a && (p + b)[|p|..] == b;
  }

  // ---------------------------------------------------------------- runs

  predicate Sorted(ts: seq<real>) {
    forall i, j | 0 <= i <= j < |ts| :: ts[i] <= ts[j]
  }

  /** The bucket after the first n calls of a run on a fresh key. */
  function After(l: Limits, ts: seq<real>, n: nat): Cell
    requires Valid(l) && n <= |ts|
  {
    if n == 0 then Absent else Next(l, After(l, ts, n - 1), ts[n - 1])
  }

  predicate Allowed(l: Limits, ts: seq<real>, n: nat)
    requires Valid(l) && n < |ts|
  {
    Grants(l, After(l, ts, n), ts[n])
  }

  /** How many of the calls i .. n - 1 were allowed. */
  function Count(l: Limits, ts: seq<real>, i: nat, n: nat): nat
    requires Valid(l) && i <= n <= |ts|
  {
    if i == n then 0 else Count(l, ts, i, n - 1) + if Allowed(l, ts, n - 1) then 1 else 0
  }

  /** What the calls since call j have left of a bucket that was full at call j. */
  function Credit(l: Limits, ts: seq<real>, j: nat, n: nat): real
    requires Valid(l) && j <= n < |ts|
  {
    l.size + Refill(l, ts[j], ts[n]) - Count(l, ts, j, n) as real
  }

  function LevelAt(l: Limits, ts: seq<real>, n: nat): real
    requires Valid(l) && n < |ts|
  {
    Level(l, After(l, ts, n), ts[n])
  }

  function Spent(l: Limits, ts: seq<real>, n: nat): real
    requires Valid(l) && n < |ts|
  {
    if Allowed(l, ts, n) then 1.0 else 0.0
  }

  lemma CreditStep(l: Limits, ts: seq<real>, j: nat, n: nat, gain: real)
    requires Valid(l) && j < n < |ts| && gain == Refill(l, ts[n - 1], ts[n])
    ensures Credit(l, ts, j, n) == Credit(l, ts, j, n - 1) + gain - Spent(l, ts, n - 1)
  {
    RefillAdds(l, ts[j], ts[n - 1], ts[n]);
  }

  lemma LevelStep(l: Limits, ts: seq<real>, n: nat, gain: real)
    requires Valid(l) && 0 < n < |ts| && gain == Refill(l, ts[n - 1], ts[n])
    ensures LevelAt(l, ts, n) == Min(l.size, LevelAt(l, ts, n - 1) + gain - Spent(l, ts, n - 1))
  {
  }

  /** The level is the least credit over all starting calls. */
  lemma {:induction false} LevelIsLeastCredit(l: Limits, ts: seq<real>, n: nat) returns (tight: nat)
    requires Valid(l) && n < |ts|
    ensures forall j | 0 <= j <= n :: LevelAt(l, ts, n) <= Credit(l, ts, j, n)
    ensures tight <= n && LevelAt(l, ts, n) == Credit(l, ts, tight, n)
  {
    if n == 0 {
      CreditNow(l, ts, n);
      tight := 0;
    } else {
      var before := LevelIsLeastCredit(l, ts, n - 1);
      forall j | 0 <= j <= n ensures LevelAt(l, ts, n) <= Credit(l, ts, j, n) {
        LevelBelowCredit(l, ts, j, n);
      }
      CreditNow(l, ts, n);
      CreditStep(l, ts, before, n, Refill(l, ts[n - 1], ts[n]));
      LevelStep(l, ts, n, Refill(l, ts[n - 1], ts[n]));
      tight := if LevelAt(l, ts, n) == l.size then n else before;
    }
  }

  lemma CreditNow(l: Limits, ts: seq<real>, n: nat)
    requires Valid(l) && n < |ts|
    ensures Credit(l, ts, n, n) == l.size && LevelAt(l, ts, n) <= l.size
  {
  }

  lemma LevelBelowCredit(l: Limits, ts: seq<real>, j: nat, n: nat)
    requires Valid(l) && j <= n < |ts| && 0 < n
    requires j < n ==> LevelAt(l, ts, n - 1) <= Credit(l, ts, j, n - 1)
    ensures LevelAt(l, ts, n) <= Credit(l, ts, j, n)
  {
    if j == n {
      CreditNow(l, ts, n);
    } else {
      var gain := Refill(l, ts[n - 1], ts[n]);
      LevelStep(l, ts, n, gain);
      CreditStep(l, ts, j, n, gain);
    }
  }

  /**
   The bucket, exactly: call n is answered allowed if and only if, counted from every earlier call j, one more admission
   still fits bucket_size + refill_rate * (t_n - t_j).
   */
  lemma AdmissionExactly(l: Limits, ts: seq<real>, n: nat)
    requires Valid(l) && n < |ts|
    ensures Allowed(l, ts, n) <==>
      forall j | 0 <= j <= n :: Count(l, ts, j, n) as real + 1.0 <= l.size + Refill(l, ts[j], ts[n])
  {
    var tight := LevelIsLeastCredit(l, ts, n);
    if Allowed(l, ts, n) {
      forall j | 0 <= j <= n ensures Count(l, ts, j, n) as real + 1.0 <= l.size + Refill(l, ts[j], ts[n]) {
        assert LevelAt(l, ts, n) <= Credit(l, ts, j, n);
      }
    } else {
      assert Count(l, ts, tight, n) as real + 1.0 > l.size + Refill(l, ts[tight], ts[n]);
    }
  }

  /** In every window of calls, admissions stay within the burst size plus the refill over the window. */
  lemma {:induction false} WindowBound(l: Limits, ts: seq<real>, j: nat, n: nat)
    requires Valid(l) && j <= n < |ts| && Sorted(ts)
    ensures Count(l, ts, j, n + 1) as real <= l.size + Refill(l, ts[j], ts[n])
  {
    if Allowed(l, ts, n) {
      AdmissionExactly(l, ts, n);
      assert Count(l, ts, j, n + 1) == Count(l, ts, j, n) + 1;
    } else if j < n {
      WindowBound(l, ts, j, n - 1);
      RefillAdds(l, ts[j], ts[n - 1], ts[n]);
      RefillIsPositive(l, ts[n - 1], ts[n]);
      assert Count(l, ts, j, n + 1) == Count(l, ts, j, n);
    } else {
      RefillIsPositive(l, ts[n], ts[n]);
      assert Count(l, ts, n, n) == 0;
    }
  }

  // ---------------------------------------------------------------- expiry

  datatype Call = Call(key: string, now: real)

  /** The store after a run of calls by any keys. */
  function Hashes(l: Limits, ttl: int, calls: seq<Call>): map<string, Stored>
    requires Valid(l)
  {
    if calls == [] then map[] else
      var c := calls[|calls| - 1];
      var before := Hashes(l, ttl, calls[..|calls| - 1]);
      var cell := Next(l, Visible(before, c.key, c.now), c.now);
      before[c.key := Stored(cell.tokens, cell.last, c.now + ttl as real)]
  }

  /** The times of one key's calls. */
  function Mine(calls: seq<Call>, key: string): seq<real> {
    if calls == [] then [] else
      var c := calls[|calls| - 1];
      Mine(calls[..|calls| - 1], key) + if c.key == key then [c.now] else []
  }

  predicate Chronological(calls: seq<Call>) {
    forall i, j | 0 <= i <= j < |calls| :: calls[i].now <= calls[j].now
  }

  lemma {:induction false} AfterPrefix(l: Limits, ts: seq<real>, more: seq<real>, n: nat)
    requires Valid(l) && n <= |ts|
    ensures After(l, ts + more, n) == After(l, ts, n)
  {
    if n > 0 { AfterPrefix(l, ts, more, n - 1); }
  }

  lemma AfterStep(l: Limits, ts: seq<real>, t: real)
    requires Valid(l)
    ensures After(l, ts + [t], |ts|) == After(l, ts, |ts|)
    ensures After(l, ts + [t], |ts + [t]|) == Next(l, After(l, ts, |ts|), t)
  {
    AfterPrefix(l, ts, [t], |ts|);
  }

  /** What the store holds for a key is the never-expiring bucket of that key's own calls. */
  ghost predicate Tracks(l: Limits, ttl: int, calls: seq<Call>, key: string)
    requires Valid(l)
  {
    var hashes, ts := Hashes(l, ttl, calls), Mine(calls, key);
    if ts == [] then key !in hashes else
      && key in hashes
      && After(l, ts, |ts|) == Present(hashes[key].tokens, hashes[key].last)
      && hashes[key].last == ts[|ts| - 1] <= calls[|calls| - 1].now
      && hashes[key].tokens >= 0.0
      && hashes[key].expireAt == hashes[key].last + ttl as real
  }

  /** A time to live long enough to refill an empty bucket. */
  ghost predicate Covers(l: Limits, ttl: int) {
    ttl as real * l.rate >= l.size
  }

  /** The time to live is twice the time to fill an empty bucket, rounded up to a second. */
  lemma TtlCovers(l: Limits)
    requires Valid(l)
    ensures Covers(l, Ttl(l))
    ensures Refill(l, 0.0, (Ttl(l) - 1) as real) < 2.0 * l.size <= Refill(l, 0.0, Ttl(l) as real)
  {
    TwiceFills(l);
    RoundedUp(l, TwiceFill(l));
  }

  lemma TwiceFills(l: Limits)
    requires Valid(l)
    ensures Refill(l, 0.0, TwiceFill(l)) == 2.0 * l.size
  {
    var full := l.size / l.rate;
    assert full * l.rate == l.size;
    assert (full * 2.0) * l.rate == 2.0 * (full * l.rate);
  }

  /** What rounding a duration up to whole seconds adds to its refill. */
  lemma RoundedUp(l: Limits, x: real)
    requires Valid(l)
    ensures Refill(l, 0.0, (Ceil(x) - 1) as real) < Refill(l, 0.0, x) <= Refill(l, 0.0, Ceil(x) as real)
  {
    ProductMonotone(Ceil(x) as real, x, l.rate);
    var gap := x - (Ceil(x) - 1) as real;
    assert gap * l.rate > 0.0;
    assert gap * l.rate == x * l.rate - (Ceil(x) - 1) as real * l.rate;
  }

  /** By the time the key expires the bucket has refilled, so a fresh one is no different. */
  lemma IdleIsFull(l: Limits, ttl: int, tokens: real, last: real, now: real)
    requires Valid(l) && Covers(l, ttl) && tokens >= 0.0 && now >= last + ttl as real
    ensures Level(l, Present(tokens, last), now) == l.size
  {
    ProductMonotone(now - last, ttl as real, l.rate);
    assert Refill(l, last, now) == (now - last) * l.rate >= l.size;
  }

  lemma ProductMonotone(a: real, b: real, r: real)
    requires a >= b && r > 0.0
    ensures a * r >= b * r
  {
    assert (a - b) * r >= 0.0;
  }

  lemma LevelIsPositive(l: Limits, c: Cell, now: real)
    requires Valid(l) && (c.Present? ==> c.tokens >= 0.0 && c.last <= now)
    ensures Level(l, c, now) >= 0.0
  {
    if c.Present? { RefillIsPositive(l, c.last, now); }
  }

  lemma VisibleAgrees(l: Limits, ttl: int, calls: seq<Call>, key: string, now: real)
    requires Valid(l) && Covers(l, ttl) && Tracks(l, ttl, calls, key)
    requires forall i | 0 <= i < |calls| :: calls[i].now <= now
    ensures var ts := Mine(calls, key);
      Level(l, Visible(Hashes(l, ttl, calls), key, now), now) == Level(l, After(l, ts, |ts|), now) >= 0.0
  {
    var ts, hashes := Mine(calls, key), Hashes(l, ttl, calls);
    var own := After(l, ts, |ts|);
    LevelIsPositive(l, own, now);
    if ts == [] {
      assert Visible(hashes, key, now) == own == Absent;
    } else if now < hashes[key].expireAt {
      assert Visible(hashes, key, now) == own;
    } else {
      IdleIsFull(l, ttl, hashes[key].tokens, hashes[key].last, now);
      assert Visible(hashes, key, now) == Absent;
    }
  }

  lemma {:induction false} StoreTracks(l: Limits, ttl: int, calls: seq<Call>, key: string)
    requires Valid(l) && Covers(l, ttl) && Chronological(calls)
    ensures Tracks(l, ttl, calls, key)
  {
    if calls != [] {
      var n := |calls| - 1;
      var c, before := calls[n], calls[..n];
      StoreTracks(l, ttl, before, key);
      if c.key == key {
        var ts := Mine(before, key);
        VisibleAgrees(l, ttl, before, key, c.now);
        AfterStep(l, ts, c.now);
        assert Next(l, Visible(Hashes(l, ttl, before), key, c.now), c.now) == Next(l, After(l, ts, |ts|), c.now);
        assert Mine(calls, key) == ts + [c.now];
      } else {
        assert Mine(calls, key) == Mine(before, key);
      }
    }
  }

  /**
   The store with expiring keys and many callers answers every call exactly as a never-expiring bucket fed only with
   that key's own calls.
   */
  lemma ExpiryChangesNothing(l: Limits, calls: seq<Call>, key: string, now: real)
    requires Valid(l) && Chronological(calls + [Call(key, now)])
    ensures var ts, seen := Mine(calls, key), Visible(Hashes(l, Ttl(l), calls), key, now);
      var own := After(l, ts + [now], |ts|);
      Answer(l, seen, now) == Answer(l, own, now) && Next(l, seen, now) == Next(l, own, now)
  {
    var ttl := Ttl(l);
    TtlCovers(l);
    var all := calls + [Call(key, now)];
    assert all[|calls|].now == now;
    forall i | 0 <= i < |calls| ensures calls[i] == all[i] && all[i].now <= all[|calls|].now {}
    assert Chronological(calls);
    StoreTracks(l, ttl, calls, key);
    VisibleAgrees(l, ttl, calls, key, now);
    var ts := Mine(calls, key);
    AfterStep(l, ts, now);
  }

  // ---------------------------------------------------------------- denied calls and retries

  /** The run with some of its first n calls taken out. */
  function Thin(ts: seq<real>, keep: seq<bool>, n: nat): (r: seq<real>)
    requires n <= |ts| == |keep|
    ensures |r| <= n
  {
    if n == 0 then [] else Thin(ts, keep, n - 1) + if keep[n - 1] then [ts[n - 1]] else []
  }

  /** Two buckets that no call from time t on can tell apart. */
  ghost predicate Indistinct(l: Limits, a: Cell, b: Cell, t: real) {
    forall now | now >= t :: Level(l, a, now) == Level(l, b, now)
  }

  /** A denied call leaves the bucket as good as untouched. */
  lemma DeniedChangesNothing(l: Limits, c: Cell, t: real)
    requires Valid(l) && !Grants(l, c, t)
    ensures Indistinct(l, Next(l, c, t), c, t)
  {
    forall now | now >= t ensures Level(l, Next(l, c, t), now) == Level(l, c, now) {
      RefillIsPositive(l, t, now);
      if c.Present? { RefillAdds(l, c.last, t, now); }
    }
  }

  lemma {:induction false} ThinTracks(l: Limits, ts: seq<real>, keep: seq<bool>, n: nat)
    requires Valid(l) && Sorted(ts) && n < |ts| == |keep|
    requires forall i | 0 <= i < |ts| && !keep[i] :: !Allowed(l, ts, i)
    ensures var thin := Thin(ts, keep, n); Indistinct(l, After(l, thin, |thin|), After(l, ts, n), ts[n])
  {
    if n > 0 {
      var thin, t := Thin(ts, keep, n - 1), ts[n - 1];
      ThinTracks(l, ts, keep, n - 1);
      AfterStep(l, thin, t);
      assert Thin(ts, keep, n) == if keep[n - 1] then thin + [t] else thin;
      StayIndistinct(l, After(l, thin, |thin|), After(l, ts, n - 1), t, ts[n], keep[n - 1]);
    }
  }

  /** Skipping a denied call, or making any call on both sides, keeps two buckets indistinct. */
  lemma StayIndistinct(l: Limits, a: Cell, b: Cell, t: real, t': real, keep: bool)
    requires Valid(l) && Indistinct(l, a, b, t) && t <= t' && (keep || !Grants(l, b, t))
    ensures Indistinct(l, if keep then Next(l, a, t) else a, Next(l, b, t), t')
  {
    if keep {
      assert Next(l, a, t) == Next(l, b, t);
    } else {
      DeniedChangesNothing(l, b, t);
      forall now | now >= t' ensures Level(l, a, now) == Level(l, Next(l, b, t), now) {
        assert Level(l, a, now) == Level(l, b, now);
      }
    }
  }

  /** Taking denied calls out of a run changes no decision about the calls that stay. */
  lemma DeniedCallsCostNothing(l: Limits, ts: seq<real>, keep: seq<bool>, n: nat)
    requires Valid(l) && Sorted(ts) && n < |ts| == |keep| && keep[n]
    requires forall i | 0 <= i < |ts| && !keep[i] :: !Allowed(l, ts, i)
    ensures var thin := Thin(ts, keep, n); Allowed(l, thin + [ts[n]], |thin|) <==> Allowed(l, ts, n)
  {
    var thin := Thin(ts, keep, n);
    ThinTracks(l, ts, keep, n);
    AfterStep(l, thin, ts[n]);
  }

  /** The bucket after k more calls at the same moment. */
  function Burst(l: Limits, c: Cell, t: real, k: nat): Cell {
    if k == 0 then c else Next(l, Burst(l, c, t, k - 1), t)
  }

  lemma {:induction false} BurstLevel(l: Limits, c: Cell, t: real, k: nat)
    requires Valid(l) && Level(l, c, t) >= k as real
    ensures Level(l, Burst(l, c, t, k), t) == Level(l, c, t) - k as real
  {
    if k > 0 { BurstLevel(l, c, t, k - 1); }
  }

  lemma DeniedAgain(l: Limits, c: Cell, t: real)
    requires Valid(l) && !Grants(l, c, t)
    ensures !Grants(l, Next(l, c, t), t)
  {
    DeniedChangesNothing(l, c, t);
    assert Level(l, Next(l, c, t), t) == Level(l, c, t);
  }

  lemma {:induction false} BurstStays(l: Limits, c: Cell, t: real, k: nat)
    requires Valid(l) && !Grants(l, c, t)
    ensures !Grants(l, Burst(l, c, t, k), t)
  {
    if k > 0 {
      BurstStays(l, c, t, k - 1);
      DeniedAgain(l, Burst(l, c, t, k - 1), t);
    }
  }

  lemma {:induction false} BurstSplits(l: Limits, c: Cell, t: real, j: nat, k: nat)
    ensures Burst(l, c, t, j + k) == Burst(l, Burst(l, c, t, j), t, k)
  {
    if k > 0 { BurstSplits(l, c, t, j, k - 1); }
  }

  /** The remaining tokens reported by a call are exactly how many further calls at that moment would be admitted. */
  lemma RemainingIsExact(l: Limits, c: Cell, t: real, k: nat)
    requires Valid(l) && Level(l, c, t) >= 0.0
    ensures Grants(l, Burst(l, Next(l, c, t), t, k), t) <==> k < Answer(l, c, t).remaining
  {
    var after, left := Next(l, c, t), Answer(l, c, t).remaining;
    assert Level(l, after, t) == after.tokens && left == after.tokens.Floor >= 0;
    if k <= left {
      BurstLevel(l, after, t, k);
    } else {
      BurstLevel(l, after, t, left);
      BurstSplits(l, after, t, left, k - left);
      BurstStays(l, Burst(l, after, t, left), t, k - left);
    }
  }

  /** A wait that refills exactly what is missing: longer waits refill at least that, shorter ones less. */
  lemma WaitExactly(rate: real, missing: real, wait: real, dt: real)
    requires rate > 0.0 && wait * rate == missing
    ensures dt >= wait <==> dt * rate >= missing
  {
    if dt >= wait {
      ProductMonotone(dt, wait, rate);
    } else {
      assert (wait - dt) * rate > 0.0;
    }
  }

  /**
   The retry hint is exact to the millisecond: with no call in between, a denied caller who waits it out is admitted, if
   the bucket can hold a token at all, and one who comes back a millisecond or more too early is not.
   */
  lemma RetryIsExact(l: Limits, c: Cell, t: real, later: real)
    requires Valid(l) && !Grants(l, c, t)
    ensures var ms := Answer(l, c, t).retryMs;
      && (later >= t + ms as real / 1000.0 ==> (Grants(l, Next(l, c, t), later) <==> l.size >= 1.0))
      && (later <= t + (ms - 1) as real / 1000.0 ==> !Grants(l, Next(l, c, t), later))
  {
    var level := Level(l, c, t);
    var wait := (1.0 - level) / l.rate;
    WaitExactly(l.rate, 1.0 - level, wait, later - t);
    assert Grants(l, Next(l, c, t), later) <==> later - t >= wait && l.size >= 1.0;
    MillisecondsOf(wait, later - t);
  }

  /** The hint holds at every later time if and only if bucket_size is at least 1; below that no wait is enough. */
  lemma RetryIsHonoured(l: Limits, c: Cell, t: real)
    requires Valid(l) && !Grants(l, c, t)
    ensures var ms := Answer(l, c, t).retryMs;
      (forall later | later >= t + ms as real / 1000.0 :: Grants(l, Next(l, c, t), later)) <==> l.size >= 1.0
  {
    var due := t + Answer(l, c, t).retryMs as real / 1000.0;
    forall later | later >= due ensures Grants(l, Next(l, c, t), later) <==> l.size >= 1.0 {
      RetryIsExact(l, c, t, later);
    }
    assert due >= due;
    assert Grants(l, Next(l, c, t), due) <==> l.size >= 1.0;
  }

  /** Rounding a wait up to whole milliseconds. */
  lemma MillisecondsOf(wait: real, dt: real)
    ensures var ms := Ceil(wait * 1000.0);
      (dt >= ms as real / 1000.0 ==> dt >= wait) && (dt <= (ms - 1) as real / 1000.0 ==> dt < wait)
  {
  }
}
