/** The limiter as the middleware keeps it: a map of mutable buckets. Every method is
    tied to the value-level step of TokenBuckets. */
module RateLimiter {
  import T = TokenBuckets

  /** The library's limiter, to its documented contract. */
  class TokenBucket {
    const lim: T.Limits
    var tokens: real
    var last: real

    function View(): T.Bucket
      reads this
    {
      T.Bucket(tokens, last)
    }

    constructor (lim: T.Limits, now: real)
      ensures this.lim == lim && View() == T.Full(lim, now)
    {
      this.lim := lim;
      tokens := lim.burst as real;
      last := now;
    }

    method Tokens(now: real) returns (n: real)
      ensures n == T.Level(View(), lim, now)
    {
      n := tokens;
      if now > last { n := n + T.Inflow(lim, last, now); }
      if n > lim.burst as real { n := lim.burst as real; }
    }

    method Allow(now: real) returns (granted: bool)
      modifies this
      ensures (View(), granted) == T.Spend(old(View()), lim, now)
    {
      var n := Tokens(now);
      granted := n >= 1.0;
      if granted { tokens, last := n - 1.0, now; }
    }
  }

  class RateLimiter {
    const lim: T.Limits
    const shared: TokenBucket
    var visitors: map<string, TokenBucket>

    /** No two keys share a bucket, and nobody owns the shared one. */
    ghost predicate Valid()
      reads this
    {
      && shared.lim == lim
      && (forall ip :: ip in visitors ==> visitors[ip].lim == lim && visitors[ip] != shared)
      && (forall ip, other :: ip in visitors && other in visitors && ip != other ==> visitors[ip] != visitors[other])
    }

    ghost function View(): T.State
      reads this, shared, visitors.Values
    {
      T.State(map ip | ip in visitors :: visitors[ip].View(), shared.View())
    }

    constructor (lim: T.Limits, now: real)
      ensures Valid() && fresh(shared) && this.lim == lim && visitors == map[]
      ensures View() == T.State(map[], T.Full(lim, now))
    {
      this.lim := lim;
      visitors := map[];
      shared := new TokenBucket(lim, now);
    }

    /** The cleanup tick: drops the visitors whose bucket is back to full. */
    method EvictIdle(now: real)
      requires Valid()
      modifies `visitors
      ensures Valid() && forall ip :: ip in visitors ==> ip in old(visitors) && visitors[ip] == old(visitors[ip])
      ensures View() == old(View()).(visitors := T.EvictIdle(old(View().visitors), lim, now))
    {
      var todo := visitors.Keys;
      while todo != {}
        invariant todo <= old(visitors.Keys)
        invariant forall ip :: ip in visitors ==> ip in old(visitors) && visitors[ip] == old(visitors[ip])
        invariant forall ip :: ip in old(visitors) ==>
          (ip in visitors <==> ip in todo || T.Level(old(visitors[ip].View()), lim, now) < lim.burst as real)
        decreases todo
      {
        var ip :| ip in todo;
        todo := todo - {ip};
        var n := visitors[ip].Tokens(now);
        if n >= lim.burst as real { visitors := visitors - {ip}; }
      }
      assert View().visitors == T.EvictIdle(old(View().visitors), lim, now);
    }

    /** The bucket a call is charged to. */
    method GetVisitor(ip: string, now: real) returns (bucket: TokenBucket)
      requires Valid()
      modifies `visitors
      ensures Valid() && View() == T.State(T.Routed(old(View().visitors), lim, ip, now), old(View().shared))
      ensures bucket == if ip in visitors then visitors[ip] else shared
      ensures bucket == shared || bucket in old(visitors.Values) || fresh(bucket)
    {
      if ip in visitors { return visitors[ip]; }
      MakeRoom(now);
      if |visitors| >= T.MAX_VISITORS { return shared; }
      bucket := new TokenBucket(lim, now);
      visitors := visitors[ip := bucket];
      assert View().visitors == old(T.RoomFor(View().visitors, lim, now))[ip := T.Full(lim, now)];
    }

    method MakeRoom(now: real)
      requires Valid()
      modifies `visitors
      ensures Valid() && forall ip :: ip in visitors ==> ip in old(visitors) && visitors[ip] == old(visitors[ip])
      ensures View() == old(View()).(visitors := T.RoomFor(old(View().visitors), lim, now))
      ensures |visitors| == |View().visitors|
    {
      SameSize(visitors, View().visitors);
      if |visitors| >= T.MAX_VISITORS {
        EvictIdle(now);
        SameSize(visitors, View().visitors);
      }
    }

    method Charge(bucket: TokenBucket, key: string, now: real) returns (granted: bool)
      requires Valid() && bucket == if key in visitors then visitors[key] else shared
      modifies bucket
      ensures Valid() && (View(), granted) == T.Charged(old(View()), lim, key, now)
    {
      granted := bucket.Allow(now);
      if key in visitors {
        assert View().visitors == old(View().visitors)[key := bucket.View()];
      } else {
        assert View().visitors == old(View().visitors);
      }
    }

    /** One call, taken as one step, is the step of TokenBuckets. */
    method Allow(key: string, now: real) returns (granted: bool)
      requires Valid()
      modifies `visitors, shared, visitors.Values
      ensures Valid() && (View(), granted) == T.Allow(old(View()), lim, key, now)
    {
      var bucket := GetVisitor(key, now);
      granted := Charge(bucket, key, now);
    }
  }

  lemma SameSize<K, V, W>(a: map<K, V>, b: map<K, W>)
    requires a.Keys == b.Keys
    ensures |a| == |b|
  {
    assert |a| == |a.Keys| && |b| == |b.Keys|;
  }

  /** Looking a bucket up and spending from it are not under one lock: a cleanup tick
      between the two lets one key be granted twice at one instant with a burst of 1,
      which two whole calls are not. */
  method SplitCallRace(rate: real, key: string, now: real) returns (first: bool, second: bool)
    ensures first && second
    ensures var lim := T.PerSecond(rate, 1);
            var s := T.State(map[], T.Full(lim, now));
            T.Answers(s, lim, [T.Call(key, now), T.Sweep(now), T.Call(key, now)]) == [true, false]
  {
    var lim := T.PerSecond(rate, 1);
    var limiter := new RateLimiter(lim, now);
    var one := limiter.GetVisitor(key, now);
    limiter.EvictIdle(now);
    assert limiter.View().visitors == map[];
    assert limiter.visitors.Keys == {};
    var other := limiter.GetVisitor(key, now);
    first := one.Allow(now);
    second := other.Allow(now);
    WholeCalls(rate, key, now);
  }

  lemma WholeCalls(rate: real, key: string, now: real)
    ensures var lim := T.PerSecond(rate, 1);
            T.Answers(T.State(map[], T.Full(lim, now)), lim, [T.Call(key, now), T.Sweep(now), T.Call(key, now)]) ==
              [true, false]
  {
    var lim := T.PerSecond(rate, 1);
    var s0 := T.State(map[], T.Full(lim, now));
    var es := [T.Call(key, now), T.Sweep(now), T.Call(key, now)];
    var s1 := T.Step(s0, lim, es[0]);
    assert s1.visitors == map[key := T.Bucket(0.0, now)];
    assert es[1..] == [T.Sweep(now), T.Call(key, now)];
    var s2 := T.Step(s1, lim, T.Sweep(now));
    assert s2.visitors == s1.visitors;
    assert es[1..][1..] == [T.Call(key, now)];
    assert T.Answers(s2, lim, [T.Call(key, now)]) == [false];
  }
}
