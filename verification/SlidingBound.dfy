/** How many calls a fixed window lets through in an interval that slides across windows. */
module SlidingBound {
  import opened RateLimit

  lemma {:induction false} CountMonotone(p: Policy, calls: seq<Call>, key: string, low: int, later: int, high: int)
    requires low <= later
    ensures Count(p, calls, key, later, high) <= Count(p, calls, key, low, high)
  {
    if calls != [] {
      CountMonotone(p, Init(calls), key, low, later, high);
    }
  }

  lemma {:induction false} CountSplit(p: Policy, calls: seq<Call>, key: string, low: int, mid: int, high: int)
    requires low <= mid <= high
    ensures Count(p, calls, key, low, high) == Count(p, calls, key, low, mid) + Count(p, calls, key, mid, high)
  {
    if calls != [] {
      CountSplit(p, Init(calls), key, low, mid, high);
    }
  }

  lemma {:induction false} CountFuture(p: Policy, calls: seq<Call>, key: string, now: int, low: int, high: int)
    requires forall i | 0 <= i < |calls| :: calls[i].at <= now
    requires now < low
    ensures Count(p, calls, key, low, high) == 0
  {
    if calls != [] {
      CountFuture(p, Init(calls), key, now, low, high);
    }
  }

  /** At most n allowed calls for the key at or after a time. */
  ghost predicate AtMostFrom(p: Policy, calls: seq<Call>, key: string, low: int, n: int) {
    forall high :: Count(p, calls, key, low, high) <= n
  }

  /** The allowed calls of the interval of one window's length that begins at low. */
  function InWindow(p: Policy, calls: seq<Call>, key: string, low: int): nat {
    Count(p, calls, key, low, low + p.window(key))
  }

  ghost predicate Bounded(p: Policy, calls: seq<Call>, key: string) {
    forall low :: InWindow(p, calls, key, low) <= 2 * p.limit(key) - 1
  }

  /** What an entry says about the calls allowed so far: its window opened with an allowed call at its very
      start, and of the window before at most limit - 1 calls are less than a window's length away. */
  ghost predicate Accounted(p: Policy, calls: seq<Call>, key: string, e: Entry) {
    var start := e.resetAt - p.window(key);
    && 1 <= e.count <= p.limit(key)
    && AtMostFrom(p, calls, key, e.resetAt, 0)
    && AtMostFrom(p, calls, key, start, e.count)
    && AtMostFrom(p, calls, key, start + 1, e.count - 1)
    && (forall low | start - p.window(key) < low <= start :: Count(p, calls, key, low, start) <= p.limit(key) - 1)
    && (calls != [] ==> start <= Last(calls).at)
  }

  ghost predicate KeyInv(p: Policy, calls: seq<Call>, key: string) {
    && Bounded(p, calls, key)
    && if key in Entries(p, calls) then Accounted(p, calls, key, Entries(p, calls)[key])
       else forall low :: AtMostFrom(p, calls, key, low, 0)
  }

  /** A call of the limiter that leaves the key's count alone keeps what the entry says. */
  lemma OtherCall(p: Policy, calls: seq<Call>, key: string)
    requires calls != [] && InOrder(calls) && KeyInv(p, Init(calls), key)
    requires Last(calls).key != key || !Allows(p, calls)
    requires p.limit(key) >= 1 && p.window(key) > 0
    ensures KeyInv(p, calls, key)
  {
    var before := Init(calls);
    forall low, high
      ensures Count(p, calls, key, low, high) == Count(p, before, key, low, high)
    {
    }
    assert key in Entries(p, calls) <==> key in Entries(p, before);
    assert key in Entries(p, before) ==> Entries(p, calls)[key] == Entries(p, before)[key];
    forall low
      ensures InWindow(p, calls, key, low) <= 2 * p.limit(key) - 1
    {
      assert InWindow(p, before, key, low) <= 2 * p.limit(key) - 1;
    }
    if key in Entries(p, calls) {
      SameCounts(p, before, calls, key, Entries(p, calls)[key]);
      assert before != [] ==> Last(before).at <= Last(calls).at;
    } else {
      forall low, high
        ensures Count(p, calls, key, low, high) == 0
      {
        assert AtMostFrom(p, before, key, low, 0);
      }
    }
  }

  lemma SameCounts(p: Policy, before: seq<Call>, calls: seq<Call>, key: string, e: Entry)
    requires Accounted(p, before, key, e)
    requires forall low, high :: Count(p, calls, key, low, high) == Count(p, before, key, low, high)
    requires calls != [] && e.resetAt - p.window(key) <= Last(calls).at
    ensures Accounted(p, calls, key, e)
  {
  }

  /** The last call is allowed, for this key. */
  ghost predicate Hits(p: Policy, calls: seq<Call>, key: string) {
    calls != [] && InOrder(calls) && Last(calls).key == key && Allows(p, calls) && p.limit(key) >= 1 && p.window(key) > 0
  }

  /** The last call opens a new window: no entry, or an entry whose window is over. */
  ghost predicate Opens(p: Policy, calls: seq<Call>, key: string)
    requires calls != []
  {
    var entries := Entries(p, Init(calls));
    key !in entries || entries[key].resetAt <= Last(calls).at
  }

  /** Calls after the start of a finished window number at most limit - 1. */
  lemma FinishedWindow(p: Policy, calls: seq<Call>, key: string, low: int, high: int)
    requires Hits(p, calls, key) && Opens(p, calls, key) && KeyInv(p, Init(calls), key)
    requires low > Last(calls).at - p.window(key)
    ensures Count(p, Init(calls), key, low, high) <= p.limit(key) - 1
  {
    var before := Init(calls);
    if key in Entries(p, before) {
      var start := Entries(p, before)[key].resetAt - p.window(key);
      assert AtMostFrom(p, before, key, start + 1, Entries(p, before)[key].count - 1);
      CountMonotone(p, before, key, start + 1, low, high);
    } else {
      assert AtMostFrom(p, before, key, low, 0);
    }
  }

  lemma OpeningCall(p: Policy, calls: seq<Call>, key: string)
    requires Hits(p, calls, key) && Opens(p, calls, key) && KeyInv(p, Init(calls), key)
    ensures KeyInv(p, calls, key)
  {
    var before, now := Init(calls), Last(calls).at;
    var e := Entry(1, now + p.window(key));
    assert Entries(p, calls)[key] == e;
    forall low
      ensures InWindow(p, calls, key, low) <= 2 * p.limit(key) - 1
    {
      assert InWindow(p, before, key, low) <= 2 * p.limit(key) - 1;
      if low <= now < low + p.window(key) {
        FinishedWindow(p, calls, key, low, low + p.window(key));
      }
    }
    var after := now + 1;
    forall high
      ensures Count(p, calls, key, now, high) <= 1
      ensures Count(p, calls, key, after, high) == 0 && Count(p, calls, key, e.resetAt, high) == 0
    {
      NothingSince(p, calls, key, high);
      CountFuture(p, calls, key, now, after, high);
      CountFuture(p, calls, key, now, e.resetAt, high);
    }
    forall low | now - p.window(key) < low <= now
      ensures Count(p, calls, key, low, now) <= p.limit(key) - 1
    {
      FinishedWindow(p, calls, key, low, now);
    }
    assert AtMostFrom(p, calls, key, e.resetAt, 0) && AtMostFrom(p, calls, key, now, 1);
    assert AtMostFrom(p, calls, key, after, 0);
  }

  /** Before a window opens, none of the calls made at its very moment was allowed. */
  lemma NothingSince(p: Policy, calls: seq<Call>, key: string, high: int)
    requires Hits(p, calls, key) && Opens(p, calls, key) && KeyInv(p, Init(calls), key)
    ensures Count(p, Init(calls), key, Last(calls).at, high) == 0
  {
    var before, now := Init(calls), Last(calls).at;
    if key in Entries(p, before) {
      var reset := Entries(p, before)[key].resetAt;
      assert AtMostFrom(p, before, key, reset, 0);
      CountMonotone(p, before, key, reset, now, high);
    } else {
      assert AtMostFrom(p, before, key, now, 0);
    }
  }

  lemma JoiningCall(p: Policy, calls: seq<Call>, key: string)
    requires Hits(p, calls, key) && !Opens(p, calls, key) && KeyInv(p, Init(calls), key)
    ensures KeyInv(p, calls, key)
  {
    var before, now := Init(calls), Last(calls).at;
    var was := Entries(p, before)[key];
    var e := Entry(was.count + 1, was.resetAt);
    var start := e.resetAt - p.window(key);
    var after := start + 1;
    assert Entries(p, calls)[key] == e;
    forall low
      ensures InWindow(p, calls, key, low) <= 2 * p.limit(key) - 1
    {
      assert InWindow(p, before, key, low) <= 2 * p.limit(key) - 1;
      var high := low + p.window(key);
      if low <= now < high {
        assert AtMostFrom(p, before, key, start, was.count) && AtMostFrom(p, before, key, after, was.count - 1);
        if low <= start {
          CountSplit(p, before, key, low, start, high);
          assert Count(p, before, key, low, start) <= p.limit(key) - 1;
          assert Count(p, before, key, start, high) <= was.count;
        } else {
          CountMonotone(p, before, key, after, low, high);
          assert Count(p, before, key, after, high) <= was.count - 1;
        }
      }
    }
    forall high
      ensures Count(p, calls, key, e.resetAt, high) == 0
      ensures Count(p, calls, key, start, high) <= e.count && Count(p, calls, key, after, high) <= e.count - 1
    {
      assert AtMostFrom(p, before, key, e.resetAt, 0);
      assert AtMostFrom(p, before, key, start, was.count) && AtMostFrom(p, before, key, after, was.count - 1);
    }
    assert AtMostFrom(p, calls, key, e.resetAt, 0) && AtMostFrom(p, calls, key, start, e.count);
    assert AtMostFrom(p, calls, key, after, e.count - 1);
    forall low | start - p.window(key) < low <= start
      ensures Count(p, calls, key, low, start) <= p.limit(key) - 1
    {
      assert Count(p, before, key, low, start) <= p.limit(key) - 1;
    }
  }

  lemma {:induction false} HistoryKeepsInv(p: Policy, calls: seq<Call>, key: string)
    requires InOrder(calls) && p.limit(key) >= 1 && p.window(key) > 0
    ensures KeyInv(p, calls, key)
  {
    if calls != [] {
      HistoryKeepsInv(p, Init(calls), key);
      if Last(calls).key != key || !Allows(p, calls) {
        OtherCall(p, calls, key);
      } else if Opens(p, calls, key) {
        OpeningCall(p, calls, key);
      } else {
        JoiningCall(p, calls, key);
      }
    }
  }

  /** In every history in clock order, over all keys, each interval of a window's length holds at most
      2 * limit - 1 allowed calls of a key: almost twice the limit, but never twice. */
  lemma SlidingBound(p: Policy, calls: seq<Call>, key: string, low: int)
    requires InOrder(calls) && p.limit(key) >= 1 && p.window(key) > 0
    ensures Count(p, calls, key, low, low + p.window(key)) <= 2 * p.limit(key) - 1
  {
    HistoryKeepsInv(p, calls, key);
    assert InWindow(p, calls, key, low) <= 2 * p.limit(key) - 1;
  }

  // ----- the bound is reached -----

  function Same(key: string, at: int, n: nat): (calls: seq<Call>)
    ensures |calls| == n
  {
    seq(n, _ => Call(key, at))
  }

  /** More calls at one moment, all of them allowed. */
  ghost predicate Adds(p: Policy, calls: seq<Call>, more: seq<Call>, key: string, at: int, n: nat) {
    forall low, high ::
      Count(p, more, key, low, high) == Count(p, calls, key, low, high) + if low <= at < high then n else 0
  }

  /** n more calls at one moment of an open window with room for them are all allowed. */
  lemma {:induction false} Fill(p: Policy, calls: seq<Call>, key: string, at: int, n: nat)
    requires p.limit(key) >= 1 && key in Entries(p, calls) && at < Entries(p, calls)[key].resetAt
    requires Entries(p, calls)[key].count + n <= p.limit(key)
    ensures var more := calls + Same(key, at, n);
      && key in Entries(p, more)
      && Entries(p, more)[key] == Entry(Entries(p, calls)[key].count + n, Entries(p, calls)[key].resetAt)
      && Adds(p, calls, more, key, at, n)
  {
    var more := calls + Same(key, at, n);
    if n == 0 {
      assert more == calls;
    } else {
      var fewer := calls + Same(key, at, n - 1);
      assert Init(more) == fewer && Last(more) == Call(key, at);
      Fill(p, calls, key, at, n - 1);
      forall low, high
        ensures Count(p, more, key, low, high) == Count(p, calls, key, low, high) + if low <= at < high then n else 0
      {
      }
    }
  }

  /** A call that finds no window open is allowed and opens one. */
  lemma Open(p: Policy, calls: seq<Call>, key: string, at: int)
    requires p.limit(key) >= 1
    requires key in Entries(p, calls) ==> Entries(p, calls)[key].resetAt <= at
    ensures var more := calls + [Call(key, at)];
      && key in Entries(p, more) && Entries(p, more)[key] == Entry(1, at + p.window(key))
      && Adds(p, calls, more, key, at, 1)
  {
    var more := calls + [Call(key, at)];
    assert Init(more) == calls && Last(more) == Call(key, at);
  }

  /** One call opens a window, and the rest of its limit comes at its last tick. */
  function LateBurst(key: string, limit: nat, window: int): seq<Call>
    requires limit >= 1
  {
    [Call(key, 0)] + Same(key, window - 1, limit - 1)
  }

  lemma LateBurstCount(p: Policy, key: string, high: int)
    requires p.limit(key) >= 1 && p.window(key) >= 2 && p.window(key) <= high
    ensures var calls := LateBurst(key, p.limit(key), p.window(key));
      && key in Entries(p, calls) && Entries(p, calls)[key] == Entry(p.limit(key), p.window(key))
      && Count(p, calls, key, p.window(key) - 1, high) == p.limit(key) - 1
  {
    Open(p, [], key, 0);
    assert [] + [Call(key, 0)] == [Call(key, 0)];
    Fill(p, [Call(key, 0)], key, p.window(key) - 1, p.limit(key) - 1);
  }

  /** A whole limit of calls at the moment a window ends. */
  lemma NextBurstCount(p: Policy, calls: seq<Call>, key: string, at: int, low: int, high: int)
    requires p.limit(key) >= 1 && p.window(key) >= 1 && low <= at < high
    requires key in Entries(p, calls) ==> Entries(p, calls)[key].resetAt <= at
    ensures Count(p, calls + Same(key, at, p.limit(key)), key, low, high) == Count(p, calls, key, low, high) + p.limit(key)
  {
    Open(p, calls, key, at);
    var more := calls + [Call(key, at)];
    Fill(p, more, key, at, p.limit(key) - 1);
    assert more + Same(key, at, p.limit(key) - 1) == calls + Same(key, at, p.limit(key));
  }

  lemma BurstsInOrder(key: string, limit: nat, window: int)
    requires limit >= 1 && window >= 1
    ensures InOrder(LateBurst(key, limit, window) + Same(key, window, limit))
  {
    var late, next := LateBurst(key, limit, window), Same(key, window, limit);
    assert forall i | 0 <= i < |late| :: late[i].at <= window - 1;
  }

  lemma BurstsCount(p: Policy, key: string, low: int)
    requires p.limit(key) >= 1 && p.window(key) >= 2 && low == p.window(key) - 1
    ensures Count(p, LateBurst(key, p.limit(key), p.window(key)) + Same(key, p.window(key), p.limit(key)),
                  key, low, low + p.window(key)) == 2 * p.limit(key) - 1
  {
    LateBurstCount(p, key, low + p.window(key));
    NextBurstCount(p, LateBurst(key, p.limit(key), p.window(key)), key, p.window(key), low, low + p.window(key));
  }

  /** For every limit and every window of at least two ticks some history reaches the bound: after a late
      burst the next window is used up at once. */
  lemma SlidingBoundReached(p: Policy, key: string) returns (calls: seq<Call>, low: int)
    requires p.limit(key) >= 1 && p.window(key) >= 2
    ensures InOrder(calls)
    ensures Count(p, calls, key, low, low + p.window(key)) == 2 * p.limit(key) - 1
  {
    var limit, window := p.limit(key), p.window(key);
    low := window - 1;
    calls := LateBurst(key, limit, window) + Same(key, window, limit);
    BurstsInOrder(key, limit, window);
    BurstsCount(p, key, low);
  }
}
