/** The two fixed-window rate limiters. Times and windows are in nanoseconds. */
module RateLimit {
  import opened Wrappers
  import Calls

  const MILLISECOND := 1_000_000

  // ----- in memory -----

  datatype Entry = Entry(count: int, resetAt: int)

  datatype Decision = Decision(entries: map<string, Entry>, ok: bool)

  /** A limit that is not positive lets everything through and keeps no entry. */
  function Decide(entries: map<string, Entry>, key: string, limit: int, window: int, now: int): Decision {
    if limit <= 0 then Decision(entries, true)
    else if key !in entries || entries[key].resetAt <= now then
      Decision(entries[key := Entry(1, now + window)], true)
    else if entries[key].count >= limit then Decision(entries, false)
    else Decision(entries[key := entries[key].(count := entries[key].count + 1)], true)
  }

  class Limiter {
    var entries: map<string, Entry>

    constructor ()
      ensures entries == map[]
    {
      entries := map[];
    }

    method Allow(key: string, limit: int, window: int, now: int) returns (ok: bool)
      modifies this
      ensures Decision(entries, ok) == Decide(old(entries), key, limit, window, now)
      ensures
        var live := key in old(entries) && now < old(entries)[key].resetAt;
        if limit <= 0 then ok && entries == old(entries)
        else && ok == (live ==> old(entries)[key].count < limit)
             && entries == if !ok then old(entries)
                           else if live then old(entries)[key := Entry(old(entries)[key].count + 1, old(entries)[key].resetAt)]
                           else old(entries)[key := Entry(1, now + window)]
    {
      if limit <= 0 {
        return true;
      }
      if key !in entries || !(entries[key].resetAt > now) {
        entries := entries[key := Entry(1, now + window)];
        return true;
      }
      var current := entries[key];
      if current.count >= limit {
        return false;
      }
      current := current.(count := current.count + 1);
      entries := entries[key := current];
      ok := true;
    }
  }

  // ----- Redis -----

  /** A key of Redis; it is gone once its expiry is reached. */
  datatype Counter = Counter(count: int, expiresAt: int)

  datatype RedisError = WindowTooShort | ScriptFailed

  datatype RedisDecision = RedisDecision(keys: map<string, Counter>, answer: Result<bool, RedisError>)

  /** Go's Duration.Milliseconds, which truncates toward zero. */
  function Millis(window: int): int {
    if window >= 0 then window / MILLISECOND else -((-window) / MILLISECOND)
  }

  predicate Present(keys: map<string, Counter>, key: string, now: int) {
    key in keys && now < keys[key].expiresAt
  }

  /** INCR counts up from zero if the key is absent; PEXPIRE follows when the count is then one. */
  function Incremented(keys: map<string, Counter>, key: string, ttlMillis: int, now: int): Counter {
    var before := if Present(keys, key, now) then keys[key] else Counter(0, now);
    Counter(before.count + 1, if before.count == 0 then now + ttlMillis * MILLISECOND else before.expiresAt)
  }

  function RedisDecide(prefix: string, keys: map<string, Counter>, key: string, limit: int, window: int, now: int,
                       call: Calls.Call): RedisDecision {
    if limit <= 0 then RedisDecision(keys, Ok(true))
    else if Millis(window) <= 0 then RedisDecision(keys, Err(WindowTooShort))
    else if call.Fails? then RedisDecision(keys, Err(ScriptFailed))
    else
      var redisKey := prefix + ":" + key;
      var counter := Incremented(keys, redisKey, Millis(window), now);
      RedisDecision(keys[redisKey := counter], if call.AnswerLost? then Err(ScriptFailed) else Ok(counter.count <= limit))
  }

  class RedisLimiter {
    const prefix: string
    var keys: map<string, Counter>

    constructor (prefix: string)
      ensures this.prefix == prefix && keys == map[]
    {
      this.prefix := prefix;
      keys := map[];
    }

    /** The script runs as one step. */
    method IncrAndExpire(redisKey: string, ttlMillis: int, now: int) returns (current: int)
      modifies this
      ensures keys == old(keys)[redisKey := Incremented(old(keys), redisKey, ttlMillis, now)]
      ensures current == keys[redisKey].count
    {
      if !Present(keys, redisKey, now) {
        keys := keys[redisKey := Counter(0, now)];
      }
      current := keys[redisKey].count + 1;
      keys := keys[redisKey := keys[redisKey].(count := current)];
      if current == 1 {
        keys := keys[redisKey := keys[redisKey].(expiresAt := now + ttlMillis * MILLISECOND)];
      }
    }

    /** The script may fail, or run although its answer is lost or comes too late. */
    method Allow(key: string, limit: int, window: int, now: int, call: Calls.Call) returns (r: Result<bool, RedisError>)
      modifies this
      ensures RedisDecision(keys, r) == RedisDecide(prefix, old(keys), key, limit, window, now, call)
      ensures
        var k := prefix + ":" + key;
        var count := if k in old(keys) && now < old(keys)[k].expiresAt then old(keys)[k].count else 0;
        if limit <= 0 then r == Ok(true) && keys == old(keys)
        else if window < 1_000_000 then r == Err(WindowTooShort) && keys == old(keys)
        else if call.Fails? then r == Err(ScriptFailed) && keys == old(keys)
        else && keys == old(keys)[k := Counter(count + 1, if count == 0 then now + window - window % 1_000_000
                                                          else old(keys)[k].expiresAt)]
             && r == if call.AnswerLost? then Err(ScriptFailed) else Ok(count < limit)
    {
      if limit <= 0 {
        return Ok(true);
      }
      var redisKey := prefix + ":" + key;
      var ttlMillis := Millis(window);
      if ttlMillis <= 0 {
        return Err(WindowTooShort);
      }
      if call.Fails? {
        return Err(ScriptFailed);
      }
      var count := IncrAndExpire(redisKey, ttlMillis, now);
      r := if call.AnswerLost? then Err(ScriptFailed) else Ok(count <= limit);
    }
  }

  // ----- whole histories -----

  /** Every key has its own fixed limit and window. */
  datatype Policy = Policy(limit: string -> int, window: string -> int)

  datatype Call = Call(key: string, at: int)

  ghost predicate InOrder(calls: seq<Call>) {
    forall i, j | 0 <= i < j < |calls| :: calls[i].at <= calls[j].at
  }

  function Last(calls: seq<Call>): Call
    requires calls != []
  {
    calls[|calls| - 1]
  }

  function Init(calls: seq<Call>): seq<Call>
    requires calls != []
  {
    calls[..|calls| - 1]
  }

  function Entries(p: Policy, calls: seq<Call>): map<string, Entry> {
    if calls == [] then map[]
    else
      var c := Last(calls);
      Decide(Entries(p, Init(calls)), c.key, p.limit(c.key), p.window(c.key), c.at).entries
  }

  /** The in-memory limiter's answer to the last call of a history. */
  function Allows(p: Policy, calls: seq<Call>): bool
    requires calls != []
  {
    var c := Last(calls);
    Decide(Entries(p, Init(calls)), c.key, p.limit(c.key), p.window(c.key), c.at).ok
  }

  /** The counters after a history in which Redis answers every call. */
  function Keys(p: Policy, prefix: string, calls: seq<Call>): map<string, Counter> {
    if calls == [] then map[]
    else
      var c := Last(calls);
      RedisDecide(prefix, Keys(p, prefix, Init(calls)), c.key, p.limit(c.key), p.window(c.key), c.at,
                  Calls.Answers).keys
  }

  function RedisAnswers(p: Policy, prefix: string, calls: seq<Call>): Result<bool, RedisError>
    requires calls != []
  {
    var c := Last(calls);
    RedisDecide(prefix, Keys(p, prefix, Init(calls)), c.key, p.limit(c.key), p.window(c.key), c.at,
                  Calls.Answers).answer
  }

  /** How many calls for a key were allowed at times in [low, high). */
  function Count(p: Policy, calls: seq<Call>, key: string, low: int, high: int): nat {
    if calls == [] then 0
    else
      var c := Last(calls);
      Count(p, Init(calls), key, low, high) +
      if c.key == key && low <= c.at < high && Allows(p, calls) then 1 else 0
  }
}
