/** The Redis limiter and the in-memory limiter give the same answers, exactly for whole-millisecond windows. */
module LimiterAgreement {
  import opened Wrappers
  import opened RateLimit
  import opened SlidingBound

  /** The window can be told to Redis without loss. */
  predicate WholeMillis(window: int) {
    window > 0 && window % MILLISECOND == 0
  }

  predicate Expressible(p: Policy, key: string) {
    p.limit(key) <= 0 || WholeMillis(p.window(key))
  }

  function RedisKey(prefix: string, key: string): string {
    prefix + ":" + key
  }

  lemma RedisKeyInjective(prefix: string, key1: string, key2: string)
    requires RedisKey(prefix, key1) == RedisKey(prefix, key2)
    ensures key1 == key2
  {
    var n := |prefix| + 1;
    assert RedisKey(prefix, key1)[n..] == key1 && RedisKey(prefix, key2)[n..] == key2;
  }

  /** The two counters of one key: same window, and the in-memory count is the Redis count cut off at the limit. */
  ghost predicate SameKey(p: Policy, prefix: string, calls: seq<Call>, key: string) {
    var entries, keys := Entries(p, calls), Keys(p, prefix, calls);
    var redisKey := RedisKey(prefix, key);
    && (key in entries <==> redisKey in keys)
    && (key in entries ==>
          && keys[redisKey].count >= 1
          && entries[key].resetAt == keys[redisKey].expiresAt
          && entries[key].count == (if keys[redisKey].count <= p.limit(key) then keys[redisKey].count else p.limit(key)))
  }

  lemma MillisExact(window: int)
    requires WholeMillis(window)
    ensures Millis(window) >= 1 && Millis(window) * MILLISECOND == window
  {
  }

  lemma {:induction false} SameCounters(p: Policy, prefix: string, calls: seq<Call>, key: string)
    requires forall k :: Expressible(p, k)
    ensures SameKey(p, prefix, calls, key)
    decreases |calls|
  {
    if calls != [] {
      SameCounters(p, prefix, Init(calls), key);
      var c := Last(calls);
      assert Expressible(p, c.key);
      if p.limit(c.key) > 0 {
        MillisExact(p.window(c.key));
      }
      if c.key != key && RedisKey(prefix, c.key) == RedisKey(prefix, key) {
        RedisKeyInjective(prefix, c.key, key);
      }
    }
  }

  /** Both limiters answer every call of every history alike when every limited key has a whole-millisecond
      window. */
  lemma LimitersAgree(p: Policy, prefix: string, calls: seq<Call>)
    requires calls != [] && forall k :: Expressible(p, k)
    ensures RedisAnswers(p, prefix, calls) == Ok(Allows(p, calls))
  {
    var c := Last(calls);
    SameCounters(p, prefix, Init(calls), c.key);
    assert Expressible(p, c.key);
    if p.limit(c.key) > 0 {
      MillisExact(p.window(c.key));
    }
  }

  // ----- windows Redis cannot express -----

  /** n calls at time 0 on a fresh key. */
  lemma {:induction false} RedisFill(p: Policy, prefix: string, key: string, n: nat)
    requires 1 <= n <= p.limit(key) && Millis(p.window(key)) >= 1
    ensures var keys := Keys(p, prefix, Same(key, 0, n));
            RedisKey(prefix, key) in keys &&
            keys[RedisKey(prefix, key)] == Counter(n, Millis(p.window(key)) * MILLISECOND)
  {
    var calls := Same(key, 0, n);
    assert Init(calls) == Same(key, 0, n - 1) && Last(calls) == Call(key, 0);
    if n > 1 {
      RedisFill(p, prefix, key, n - 1);
    } else {
      assert Init(calls) == [];
    }
  }

  lemma Disagreement(p: Policy, prefix: string, key: string) returns (calls: seq<Call>)
    requires !Expressible(p, key)
    ensures calls != [] && InOrder(calls) && RedisAnswers(p, prefix, calls) != Ok(Allows(p, calls))
  {
    var limit, window := p.limit(key), p.window(key);
    if Millis(window) <= 0 {
      calls := [Call(key, 0)];
    } else {
      var expiry := Millis(window) * MILLISECOND;
      assert expiry < window;
      Open(p, [], key, 0);
      var first := [] + [Call(key, 0)];
      Fill(p, first, key, 0, limit - 1);
      var full := Same(key, 0, limit);
      assert first + Same(key, 0, limit - 1) == full;
      RedisFill(p, prefix, key, limit);
      calls := full + [Call(key, expiry)];
      assert Init(calls) == full && Last(calls) == Call(key, expiry);
    }
  }

  /** Agreement on every history in clock order holds exactly when every limited key has a positive window
      of whole milliseconds. The in-memory limiter takes any window; Redis refuses one under a millisecond
      and rounds the others down. */
  lemma AgreementIff(p: Policy, prefix: string)
    ensures (forall calls | calls != [] && InOrder(calls) :: RedisAnswers(p, prefix, calls) == Ok(Allows(p, calls))) <==>
            (forall key :: Expressible(p, key))
  {
    if forall key :: Expressible(p, key) {
      forall calls | calls != [] && InOrder(calls)
        ensures RedisAnswers(p, prefix, calls) == Ok(Allows(p, calls))
      {
        LimitersAgree(p, prefix, calls);
      }
    } else {
      var key :| !Expressible(p, key);
      var calls := Disagreement(p, prefix, key);
    }
  }
}
