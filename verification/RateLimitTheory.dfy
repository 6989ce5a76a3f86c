/** Whole runs of the rate limiter: what the pruned buckets decide, and how good the decisions are. */
module RateLimitTheory {
  import opened RateLimit

  ghost predicate Ordered(times: seq<int>) {
    forall i, j | 0 <= i <= j < |times| :: times[i] <= times[j]
  }

  // ----- filtering -----

  lemma {:induction false} RecentTwice(ts: seq<int>, c: int, d: int)
    requires c <= d
    ensures Recent(Recent(ts, c), d) == Recent(ts, d)
  {
    if ts != [] {
      var before, last := ts[..|ts| - 1], ts[|ts| - 1];
      RecentTwice(before, c, d);
      var kept := Recent(before, c);
      if last > c {
        assert (kept + [last])[..|kept|] == kept;
      } else {
        assert kept + [] == kept;
      }
    }
  }

  lemma RecentAppend(ts: seq<int>, t: int, c: int)
    ensures Recent(ts + [t], c) == Recent(ts, c) + if t > c then [t] else []
  {
    assert (ts + [t])[..|ts|] == ts;
  }

  /** On ordered times the filter keeps a suffix: everything from the first recent time on. */
  lemma {:induction false} RecentIsSuffix(ts: seq<int>, c: int)
    requires Ordered(ts)
    ensures |Recent(ts, c)| <= |ts| && Recent(ts, c) == ts[|ts| - |Recent(ts, c)|..]
    ensures forall i | 0 <= i < |ts| :: ts[i] > c <==> i >= |ts| - |Recent(ts, c)|
  {
    if ts != [] {
      var before := ts[..|ts| - 1];
      RecentIsSuffix(before, c);
      var from := |before| - |Recent(before, c)|;
      if ts[|ts| - 1] > c {
        assert Recent(ts, c) == before[from..] + [ts[|ts| - 1]] == ts[from..];
      } else {
        assert forall i | 0 <= i < |before| :: before[i] == ts[i] <= ts[|ts| - 1] <= c;
        assert Recent(ts, c) == [];
      }
    }
  }

  // ----- the pruned bucket and the full history -----

  lemma {:induction false} AcceptedBounds(times: seq<int>)
    requires Ordered(times)
    ensures Ordered(Accepted(times))
    ensures forall i | 0 <= i < |Accepted(times)| :: times != [] && Accepted(times)[i] <= times[|times| - 1]
  {
    if times != [] {
      var before := times[..|times| - 1];
      AcceptedBounds(before);
      if before != [] {
        assert before[|before| - 1] == times[|times| - 2] <= times[|times| - 1];
      }
    }
  }

  /** The bucket is the full history cut at the last call's window, and never longer than MAX. */
  lemma {:induction false} BucketIsRecentHistory(times: seq<int>)
    requires Ordered(times)
    ensures times != [] ==> Bucket(times) == Recent(Accepted(times), times[|times| - 1] - WINDOW)
    ensures |Bucket(times)| <= MAX
  {
    if times != [] {
      hide Remember, Decide, Recent, Bucket, Accepted;
      var before, now := times[..|times| - 1], times[|times| - 1];
      BucketIsRecentHistory(before);
      BucketAgrees(before, now);
      RememberAgrees(Bucket(before), Accepted(before), now);
      LastCall(times);
    } else {
      assert Bucket(times) == [];
    }
  }

  lemma LastCall(times: seq<int>)
    requires times != []
    ensures var before, now := times[..|times| - 1], times[|times| - 1];
            && Bucket(times) == Remember(Bucket(before), now)
            && Accepted(times) == Accepted(before) + if Decide(Bucket(before), now).ok then [now] else []
  {
  }

  lemma RememberAgrees(bucket: seq<int>, history: seq<int>, now: int)
    requires Recent(bucket, now - WINDOW) == Recent(history, now - WINDOW) && |bucket| <= MAX
    ensures var next := history + if Decide(bucket, now).ok then [now] else [];
            Remember(bucket, now) == Recent(next, now - WINDOW)
    ensures |Remember(bucket, now)| <= MAX
  {
    RecentShrinks(bucket, now - WINDOW);
    RecentAppend(history, now, now - WINDOW);
    assert history + [] == history;
  }

  /** At the next call the bucket and the full history show the same recent attempts. */
  lemma BucketAgrees(times: seq<int>, now: int)
    requires Ordered(times) && (times == [] || times[|times| - 1] <= now)
    requires times != [] ==> Bucket(times) == Recent(Accepted(times), times[|times| - 1] - WINDOW)
    ensures Recent(Bucket(times), now - WINDOW) == Recent(Accepted(times), now - WINDOW)
  {
    if times != [] {
      RecentTwice(Accepted(times), times[|times| - 1] - WINDOW, now - WINDOW);
    }
  }

  lemma {:induction false} RecentShrinks(ts: seq<int>, c: int)
    ensures |Recent(ts, c)| <= |ts|
  {
    if ts != [] {
      RecentShrinks(ts[..|ts| - 1], c);
    }
  }

  /** How many of the times lie in the half-open interval (lo, hi]. */
  function CountIn(ts: seq<int>, lo: int, hi: int): nat {
    if ts == [] then 0
    else CountIn(ts[..|ts| - 1], lo, hi) + if lo < ts[|ts| - 1] <= hi then 1 else 0
  }

  lemma {:induction false} RecentCounts(ts: seq<int>, c: int, now: int)
    requires forall i | 0 <= i < |ts| :: ts[i] <= now
    ensures |Recent(ts, c)| == CountIn(ts, c, now)
  {
    if ts != [] {
      RecentCounts(ts[..|ts| - 1], c, now);
    }
  }

  /**
    The limiter decides as if it counted the whole accepted history: a call is accepted exactly
    when fewer than MAX accepted calls lie in (now - WINDOW, now].
   */
  lemma DecidesOnFullHistory(times: seq<int>, now: int)
    requires Ordered(times + [now])
    ensures Verdict(times, now).ok <==> CountIn(Accepted(times), now - 300_000_000_000, now) < 5
  {
    Prefix(times, now);
    BucketIsRecentHistory(times);
    BucketAgrees(times, now);
    AcceptedBounds(times);
    RecentCounts(Accepted(times), now - WINDOW, now);
  }

  lemma Prefix(times: seq<int>, now: int)
    requires Ordered(times + [now])
    ensures Ordered(times) && (times == [] || times[|times| - 1] <= now)
  {
    var all := times + [now];
    assert forall i | 0 <= i < |times| :: all[i] == times[i];
    assert all[|times|] == now;
  }

  // ----- the limit -----

  /** No MAX + 1 calls within less than a window. */
  ghost predicate Obeys(ts: seq<int>) {
    forall i | 0 <= i && i + MAX < |ts| :: ts[i + MAX] - ts[i] >= WINDOW
  }

  /** Any MAX + 1 accepted calls span at least a window. */
  lemma {:induction false} AcceptedObeys(times: seq<int>)
    requires Ordered(times)
    ensures Obeys(Accepted(times))
  {
    if times != [] {
      hide Decide, Recent;
      var before, now := times[..|times| - 1], times[|times| - 1];
      AcceptedObeys(before);
      assert times == before + [now];
      if Verdict(before, now).ok {
        AcceptedAfterGap(before, now);
      }
    }
  }

  /** An accepted call comes at least a window after the MAX-th accepted call before it. */
  lemma AcceptedAfterGap(times: seq<int>, now: int)
    requires Ordered(times + [now]) && Verdict(times, now).ok
    ensures var h := Accepted(times); |h| >= MAX ==> h[|h| - MAX] <= now - WINDOW
  {
    Prefix(times, now);
    BucketIsRecentHistory(times);
    BucketAgrees(times, now);
    AcceptedBounds(times);
    RecentIsSuffix(Accepted(times), now - WINDOW);
  }

  lemma {:induction false} CountIsDifference(ts: seq<int>, lo: int, hi: int)
    requires lo <= hi
    ensures CountIn(ts, lo, hi) == |Recent(ts, lo)| - |Recent(ts, hi)|
  {
    if ts != [] {
      CountIsDifference(ts[..|ts| - 1], lo, hi);
    }
  }

  lemma {:induction false} CountEmpty(ts: seq<int>, lo: int, hi: int)
    requires hi <= lo
    ensures CountIn(ts, lo, hi) == 0
  {
    if ts != [] {
      CountEmpty(ts[..|ts| - 1], lo, hi);
    }
  }

  /** Ordered times that obey the limit have at most MAX of them in a half-open window. */
  lemma AtMostMax(ts: seq<int>, lo: int, hi: int)
    requires Ordered(ts) && Obeys(ts) && hi <= lo + WINDOW
    ensures CountIn(ts, lo, hi) <= MAX
  {
    if lo < hi {
      CountIsDifference(ts, lo, hi);
      RecentIsSuffix(ts, lo);
      RecentIsSuffix(ts, hi);
      var i := |ts| - |Recent(ts, lo)|;
      if i + MAX < |ts| {
        assert ts[i + MAX] - ts[i] >= WINDOW;
      }
    } else {
      CountEmpty(ts, lo, hi);
    }
  }

  /** If they do not obey it, some half-open window has more. */
  lemma MoreThanMax(ts: seq<int>, i: nat)
    requires Ordered(ts) && i + MAX < |ts| && ts[i + MAX] - ts[i] < WINDOW
    ensures CountIn(ts, ts[i] - 1, ts[i + MAX]) > MAX
  {
    var lo, hi := ts[i] - 1, ts[i + MAX];
    CountIsDifference(ts, lo, hi);
    RecentIsSuffix(ts, lo);
    RecentIsSuffix(ts, hi);
  }

  /** For ordered times, `Obeys` says that every half-open interval of window length holds at most MAX. */
  lemma ObeysMeansAtMostMax(ts: seq<int>)
    requires Ordered(ts)
    ensures Obeys(ts) <==> forall lo, hi | hi <= lo + WINDOW :: CountIn(ts, lo, hi) <= MAX
  {
    if Obeys(ts) {
      forall lo, hi | hi <= lo + WINDOW
        ensures CountIn(ts, lo, hi) <= MAX
      {
        AtMostMax(ts, lo, hi);
      }
    } else {
      var i :| 0 <= i && i + MAX < |ts| && ts[i + MAX] - ts[i] < WINDOW;
      MoreThanMax(ts, i);
    }
  }

  // ----- optimality -----

  /** The calls selected by a mask of the same length. */
  function Picked(times: seq<int>, mask: seq<bool>): seq<int>
    requires |mask| == |times|
  {
    if times == [] then []
    else
      var last := |times| - 1;
      Picked(times[..last], mask[..last]) + if mask[last] then [times[last]] else []
  }

  /** Call for call, `ts` has accepted no later than `ps` has picked. */
  ghost predicate Ahead(ts: seq<int>, ps: seq<int>) {
    |ps| <= |ts| && forall i | 0 <= i < |ps| :: ts[i] <= ps[i]
  }

  /** A call the limiter rejects had MAX accepted calls in its window, ending with the last one. */
  lemma RejectedFor(times: seq<int>, now: int)
    requires Ordered(times + [now]) && !Verdict(times, now).ok
    ensures var h := Accepted(times); |h| >= MAX && h[|h| - MAX] > now - WINDOW
  {
    Prefix(times, now);
    BucketIsRecentHistory(times);
    BucketAgrees(times, now);
    AcceptedBounds(times);
    RecentIsSuffix(Accepted(times), now - WINDOW);
  }

  lemma {:induction false} StaysAhead(times: seq<int>, mask: seq<bool>)
    requires |mask| == |times| && Ordered(times) && Obeys(Picked(times, mask))
    ensures Ahead(Accepted(times), Picked(times, mask))
  {
    if times != [] {
      var last := |times| - 1;
      var before, now, picks := times[..last], times[last], Picked(times[..last], mask[..last]);
      var h, p := Accepted(before), Picked(times, mask);
      assert forall i | 0 <= i < |picks| :: p[i] == picks[i];
      assert Obeys(picks) by {
        assert forall i | 0 <= i && i + MAX < |picks| :: p[i + MAX] - p[i] >= WINDOW;
      }
      StaysAhead(before, mask[..last]);
      assert times == before + [now];
      Prefix(before, now);
      AcceptedBounds(before);
      AcceptedBounds(times);
      if mask[last] && !Verdict(before, now).ok {
        RejectedFor(before, now);
        if |picks| >= MAX {
          assert p[|picks|] - p[|picks| - MAX] >= WINDOW;
        }
      }
    }
  }

  /**
    The limiter is optimal: after any ordered calls it has accepted at least as many as any
    selection of those calls that keeps the same limit.
   */
  lemma GreedyIsOptimal(times: seq<int>, mask: seq<bool>)
    requires |mask| == |times| && Ordered(times) && Obeys(Picked(times, mask))
    ensures |Picked(times, mask)| <= |Accepted(times)| && Obeys(Accepted(times))
  {
    StaysAhead(times, mask);
    AcceptedObeys(times);
  }

  // ----- retryAfter -----

  /** A rejected call leaves exactly MAX attempts, the oldest of which sets `retryAfter`. */
  lemma RejectedBucket(times: seq<int>, now: int)
    requires Ordered(times + [now]) && !Verdict(times, now).ok
    ensures var b := Bucket(times + [now]);
            && |b| == MAX && Ordered(b) && b[0] > now - WINDOW && b[MAX - 1] <= now
            && Verdict(times, now).retryAfter == b[0] + WINDOW - now
  {
    hide Recent;
    Prefix(times, now);
    BucketIsRecentHistory(times);
    BucketAgrees(times, now);
    AcceptedBounds(times);
    assert (times + [now])[..|times|] == times;
    RecentShrinks(Bucket(times), now - WINDOW);
    RecentKeepsOrder(Accepted(times), now - WINDOW, now);
  }

  lemma RecentKeepsOrder(ts: seq<int>, c: int, now: int)
    requires Ordered(ts) && forall i | 0 <= i < |ts| :: ts[i] <= now
    ensures Ordered(Recent(ts, c)) && forall i | 0 <= i < |Recent(ts, c)| :: c < Recent(ts, c)[i] <= now
  {
    RecentIsSuffix(ts, c);
  }

  /** On a rejection the promised wait is positive and at most a window. */
  lemma RetryAfterBounds(times: seq<int>, now: int)
    requires Ordered(times + [now]) && !Verdict(times, now).ok
    ensures 0 < Verdict(times, now).retryAfter <= 300_000_000_000
  {
    RejectedBucket(times, now);
  }

  /** A full bucket rejects every call before its oldest attempt leaves the window, and none after. */
  lemma FullBucket(b: seq<int>, t: int)
    requires Ordered(b) && |b| == MAX
    ensures Decide(b, t).ok <==> t >= b[0] + WINDOW
    ensures !Decide(b, t).ok ==> Remember(b, t) == b && Decide(b, t).retryAfter == b[0] + WINDOW - t
  {
    RecentIsSuffix(b, t - WINDOW);
  }

  lemma {:induction false} RejectedUntil(b: seq<int>, times: seq<int>, more: seq<int>)
    requires Ordered(b) && |b| == MAX && Bucket(times) == b
    requires forall i | 0 <= i < |more| :: more[i] < b[0] + WINDOW
    ensures Bucket(times + more) == b
  {
    if more == [] {
      assert times + more == times;
    } else {
      var last := |more| - 1;
      RejectedUntil(b, times, more[..last]);
      assert (times + more)[..|times + more| - 1] == times + more[..last];
      FullBucket(b, more[last]);
    }
  }

  /**
    `retryAfter` is exact: after a rejection, whatever calls come in between before the promised
    instant, a call is accepted if and only if it comes at or after that instant.
   */
  lemma RetryAfterIsExact(times: seq<int>, now: int, more: seq<int>, t: int)
    requires Ordered(times + [now]) && !Verdict(times, now).ok
    requires forall i | 0 <= i < |more| :: more[i] < now + Verdict(times, now).retryAfter
    ensures Verdict(times + [now] + more, t).ok <==> t >= now + Verdict(times, now).retryAfter
  {
    RejectedBucket(times, now);
    var b := Bucket(times + [now]);
    RejectedUntil(b, times + [now], more);
    FullBucket(b, t);
  }

  // ----- all keys -----

  datatype Call = Call(key: string, now: int)

  /** What is remembered for a key after the calls on all keys, as LoginRateLimiter.TryAcquire updates it. */
  function Remembered(calls: seq<Call>, key: string): seq<int> {
    if calls == [] then []
    else
      var before, last := Remembered(calls[..|calls| - 1], key), calls[|calls| - 1];
      if last.key == key then Remember(before, last.now) else before
  }

  /** The times of the calls on one key. */
  function TimesOf(calls: seq<Call>, key: string): seq<int> {
    if calls == [] then []
    else
      var last := calls[|calls| - 1];
      TimesOf(calls[..|calls| - 1], key) + if last.key == key then [last.now] else []
  }

  /** Keys do not influence each other: what is remembered for a key is what its own calls leave. */
  lemma {:induction false} KeysAreIndependent(calls: seq<Call>, key: string)
    ensures Remembered(calls, key) == Bucket(TimesOf(calls, key))
  {
    hide Remember;
    if calls != [] {
      var before, last := calls[..|calls| - 1], calls[|calls| - 1];
      KeysAreIndependent(before, key);
      var times := TimesOf(before, key);
      if last.key == key {
        assert (times + [last.now])[..|times|] == times;
      } else {
        assert times + [] == times;
      }
    }
  }

  /** The calls on a key that the limiter accepted, call by call, among those on all keys. */
  function AcceptedOn(calls: seq<Call>, key: string): seq<int> {
    if calls == [] then []
    else
      var before, last := calls[..|calls| - 1], calls[|calls| - 1];
      AcceptedOn(before, key) +
      if last.key == key && Decide(Remembered(before, key), last.now).ok then [last.now] else []
  }

  /** What was accepted on a key is what its own calls alone would have got accepted. */
  lemma {:induction false} AcceptedIndependently(calls: seq<Call>, key: string)
    ensures AcceptedOn(calls, key) == Accepted(TimesOf(calls, key))
  {
    hide Decide, Remember;
    if calls != [] {
      var before, last := calls[..|calls| - 1], calls[|calls| - 1];
      var times := TimesOf(before, key);
      AcceptedIndependently(before, key);
      KeysAreIndependent(before, key);
      if last.key == key {
        assert (times + [last.now])[..|times|] == times;
      } else {
        assert times + [] == times;
      }
    }
  }

  /**
    In any interleaving: of the calls the limiter accepted on a key, any MAX + 1 span at least a
    window, no half-open interval of window length holds more than MAX, and no selection of the
    key's calls that keeps the limit has more.
   */
  lemma EveryKeyKeepsTheLimit(calls: seq<Call>, key: string, mask: seq<bool>)
    requires Ordered(TimesOf(calls, key)) && |mask| == |TimesOf(calls, key)|
    ensures Obeys(AcceptedOn(calls, key))
    ensures forall lo, hi | hi <= lo + 300_000_000_000 :: CountIn(AcceptedOn(calls, key), lo, hi) <= 5
    ensures Obeys(Picked(TimesOf(calls, key), mask)) ==>
              |Picked(TimesOf(calls, key), mask)| <= |AcceptedOn(calls, key)|
  {
    var times := TimesOf(calls, key);
    AcceptedIndependently(calls, key);
    AcceptedObeys(times);
    AcceptedBounds(times);
    ObeysMeansAtMostMax(Accepted(times));
    if Obeys(Picked(times, mask)) {
      GreedyIsOptimal(times, mask);
    }
  }

  /** In any interleaving: a call is accepted exactly if fewer than MAX accepted calls on its key lie in its window. */
  lemma EveryKeyDecidesOnFullHistory(calls: seq<Call>, call: Call)
    requires Ordered(TimesOf(calls, call.key) + [call.now])
    ensures Decide(Remembered(calls, call.key), call.now).ok <==>
            CountIn(AcceptedOn(calls, call.key), call.now - 300_000_000_000, call.now) < 5
  {
    AcceptedIndependently(calls, call.key);
    KeysAreIndependent(calls, call.key);
    DecidesOnFullHistory(TimesOf(calls, call.key), call.now);
  }
}
