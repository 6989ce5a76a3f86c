/**
  The login rate limiter: at most MAX accepted attempts per key in any window of length WINDOW.
  Times are nanoseconds; the calls on one key carry nondecreasing times, as they read the clock
  under the limiter's lock.
 */
module RateLimit {
  const MAX := 5
  const WINDOW := 300_000_000_000

  /** `retryAfter` is meaningful for a rejected attempt and 0 otherwise. */
  datatype Decision = Decision(ok: bool, retryAfter: int)

  // ----- one call -----

  /** The attempts after `cutoff`, in order. */
  function Recent(attempts: seq<int>, cutoff: int): seq<int> {
    if attempts == [] then []
    else
      var last := attempts[|attempts| - 1];
      Recent(attempts[..|attempts| - 1], cutoff) + if last > cutoff then [last] else []
  }

  function Decide(attempts: seq<int>, now: int): Decision {
    var valid := Recent(attempts, now - WINDOW);
    if |valid| >= MAX then Decision(false, valid[0] + WINDOW - now) else Decision(true, 0)
  }

  function Remember(attempts: seq<int>, now: int): seq<int> {
    var valid := Recent(attempts, now - WINDOW);
    if |valid| >= MAX then valid else valid + [now]
  }

  // ----- runs on one key -----

  /** What the bucket holds after calls at these times. */
  function Bucket(times: seq<int>): seq<int> {
    if times == [] then [] else Remember(Bucket(times[..|times| - 1]), times[|times| - 1])
  }

  /** The decision on the next call. */
  function Verdict(times: seq<int>, now: int): Decision {
    Decide(Bucket(times), now)
  }

  /** Every accepted call, none forgotten. */
  function Accepted(times: seq<int>): seq<int> {
    if times == [] then []
    else
      var before, now := times[..|times| - 1], times[|times| - 1];
      Accepted(before) + if Verdict(before, now).ok then [now] else []
  }

  // ----- the objects -----

  /** The bucket of one key: the first `len` entries of a backing array. */
  class RateBucket {
    var data: array<int>
    var len: nat

    ghost predicate Valid()
      reads this
    {
      len <= data.Length
    }

    ghost function Attempts(): seq<int>
      requires Valid()
      reads this, data
    {
      data[..len]
    }

    constructor ()
      ensures Valid() && Attempts() == [] && fresh(data)
    {
      data, len := new int[0], 0;
    }

    /** Keep the attempts after the cutoff, compacting the array in place. */
    method Prune(cutoff: int)
      requires Valid()
      modifies this`len, data
      ensures Valid() && data == old(data)
      ensures Attempts() == Recent(old(Attempts()), cutoff)
    {
      ghost var was := data[..len];
      var n, kept := len, 0;
      for i := 0 to n
        invariant kept <= i && data[..kept] == Recent(was[..i], cutoff)
        invariant data[i..n] == was[i..]
      {
        var t := data[i];
        assert t == data[i..n][0] == was[i..][0];
        assert was[..i + 1][..i] == was[..i];
        if t > cutoff {
          ghost var front := data[..kept];
          data[kept] := t;
          kept := kept + 1;
          assert data[..kept] == front + [t];
        }
        assert data[i + 1..n] == was[i + 1..];
      }
      assert was[..n] == was;
      len := kept;
    }

    /** Append, in place while the backing array has room. */
    method Append(t: int)
      requires Valid()
      modifies this, data
      ensures Valid() && (data == old(data) || fresh(data))
      ensures Attempts() == old(Attempts()) + [t]
    {
      if len == data.Length {
        var n := len;
        var grown := new int[2 * n + 1];
        for i := 0 to n
          invariant data == old(data) && len == n && data[..] == old(data[..])
          invariant grown[..i] == data[..i]
        {
          grown[i] := data[i];
        }
        data := grown;
      }
      data[len] := t;
      len := len + 1;
    }

    method TryAcquire(now: int) returns (decision: Decision)
      requires Valid()
      modifies this, data
      ensures Valid() && (data == old(data) || fresh(data))
      ensures decision == Decide(old(Attempts()), now)
      ensures Attempts() == Remember(old(Attempts()), now)
    {
      Prune(now - WINDOW);
      if len >= MAX {
        return Decision(false, data[0] + WINDOW - now);
      }
      Append(now);
      return Decision(true, 0);
    }
  }

  /** One bucket per key, created on the key's first call. */
  class LoginRateLimiter {
    var buckets: map<string, RateBucket>

    ghost predicate Valid()
      reads this, buckets.Values
    {
      && (forall k | k in buckets :: buckets[k].Valid())
      && (forall j, k | j in buckets && k in buckets && j != k ::
            buckets[j] != buckets[k] && buckets[j].data != buckets[k].data)
    }

    /** The attempts remembered for a key; none for a key never seen. */
    ghost function Attempts(key: string): seq<int>
      requires Valid()
      reads this, buckets.Values, set k | k in buckets :: buckets[k].data
    {
      if key in buckets then buckets[key].Attempts() else []
    }

    constructor ()
      ensures Valid() && forall key :: Attempts(key) == []
    {
      buckets := map[];
    }

    /** The decision depends on what is remembered for this key alone, and changes no other key. */
    method TryAcquire(key: string, now: int) returns (decision: Decision)
      requires Valid()
      modifies this, buckets.Values, set k | k in buckets :: buckets[k].data
      ensures Valid() && fresh(buckets.Values - old(buckets.Values))
      ensures decision == Decide(old(Attempts(key)), now)
      ensures Attempts(key) == Remember(old(Attempts(key)), now)
      ensures forall other | other != key :: Attempts(other) == old(Attempts(other))
    {
      hide Decide, Remember;
      if key !in buckets {
        var b := new RateBucket();
        buckets := buckets[key := b];
      }
      decision := buckets[key].TryAcquire(now);
    }
  }
}
