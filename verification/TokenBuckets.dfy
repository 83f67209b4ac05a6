/** Keyed rate limiting on values: token buckets in a capped map whose full entries
    may be evicted at any time, against one bucket per key forever. */
module TokenBuckets {
  import opened Prelude

  const MAX_VISITORS := 50000

  /** At most `burst` tokens; `accrued(t)` have flowed by time t. The library's accrual
      is constant (see PerSecond); the results only need that it never goes backwards. */
  datatype Limits = Limits(accrued: real -> real, burst: nat)

  /** rate.NewLimiter(rate, burst). */
  function PerSecond(rate: real, burst: nat): Limits {
    Limits(t => rate * t, burst)
  }

  ghost predicate Sensible(lim: Limits) {
    forall t, u :: t <= u ==> lim.accrued(t) <= lim.accrued(u)
  }

  function Inflow(lim: Limits, from: real, to: real): real {
    lim.accrued(to) - lim.accrued(from)
  }

  lemma PerSecondSensible(rate: real, burst: nat, from: real, to: real)
    requires rate >= 0.0
    ensures Sensible(PerSecond(rate, burst))
    ensures Inflow(PerSecond(rate, burst), from, to) == rate * (to - from)
  {
    var lim := PerSecond(rate, burst);
    forall t, u | t <= u ensures lim.accrued(t) <= lim.accrued(u) {
      assert rate * (u - t) >= 0.0;
    }
  }

  datatype Bucket = Bucket(tokens: real, last: real)

  function Full(lim: Limits, t: real): Bucket {
    Bucket(lim.burst as real, t)
  }

  /** Tokens available at time t: lazily refilled since the last grant, capped. */
  function Level(k: Bucket, lim: Limits, t: real): real {
    var grown := k.tokens + (if t > k.last then Inflow(lim, k.last, t) else 0.0);
    if grown > lim.burst as real then lim.burst as real else grown
  }

  /** A grant spends one token; a refusal changes nothing. */
  function Spend(k: Bucket, lim: Limits, t: real): (Bucket, bool) {
    if Level(k, lim, t) >= 1.0 then (Bucket(Level(k, lim, t) - 1.0, t), true) else (k, false)
  }

  ghost predicate Settled(k: Bucket, lim: Limits, now: real) {
    0.0 <= k.tokens <= lim.burst as real && k.last <= now
  }

  lemma LevelGrows(k: Bucket, lim: Limits, t: real, u: real)
    requires Sensible(lim) && Settled(k, lim, t) && t <= u
    ensures Level(k, lim, t) <= Level(k, lim, u) <= Level(k, lim, t) + Inflow(lim, t, u)
    ensures 0.0 <= Level(k, lim, t) <= lim.burst as real
    ensures Level(k, lim, t) >= lim.burst as real ==> Level(k, lim, u) == lim.burst as real
  {
  }

  // ---- The capped map ---------------------------------------------------------------

  type Buckets = map<string, Bucket>

  datatype State = State(visitors: Buckets, shared: Bucket)

  function EvictIdle(visitors: Buckets, lim: Limits, t: real): Buckets {
    map ip | ip in visitors && Level(visitors[ip], lim, t) < lim.burst as real :: visitors[ip]
  }

  function RoomFor(visitors: Buckets, lim: Limits, t: real): Buckets {
    if |visitors| >= MAX_VISITORS then EvictIdle(visitors, lim, t) else visitors
  }

  /** The map after getVisitor: an unknown key gets a full bucket if there is room,
      after an eviction if need be. */
  function Routed(visitors: Buckets, lim: Limits, key: string, t: real): Buckets {
    if key in visitors then visitors
    else
      var room := RoomFor(visitors, lim, t);
      if |room| >= MAX_VISITORS then room else room[key := Full(lim, t)]
  }

  function Charged(s: State, lim: Limits, key: string, t: real): (State, bool) {
    if key in s.visitors then
      var (k, granted) := Spend(s.visitors[key], lim, t);
      (State(s.visitors[key := k], s.shared), granted)
    else
      var (k, granted) := Spend(s.shared, lim, t);
      (State(s.visitors, k), granted)
  }

  function Allow(s: State, lim: Limits, key: string, t: real): (State, bool) {
    Charged(State(Routed(s.visitors, lim, key, t), s.shared), lim, key, t)
  }

  predicate UsesShared(s: State, lim: Limits, key: string, t: real) {
    key !in Routed(s.visitors, lim, key, t)
  }

  datatype Event = Call(key: string, at: real) | Sweep(at: real)

  function Step(s: State, lim: Limits, e: Event): State {
    match e
    case Call(key, t) => Allow(s, lim, key, t).0
    case Sweep(t) => s.(visitors := EvictIdle(s.visitors, lim, t))
  }

  function After(s: State, lim: Limits, es: seq<Event>): State
    decreases es
  {
    if es == [] then s else After(Step(s, lim, es[0]), lim, es[1..])
  }

  /** Time never runs backwards. */
  ghost predicate Ordered(es: seq<Event>, from: real, to: real)
    decreases es
  {
    if es == [] then from <= to else from <= es[0].at && Ordered(es[1..], es[0].at, to)
  }

  ghost predicate Valid(s: State, lim: Limits, now: real) {
    && (forall ip :: ip in s.visitors ==> Settled(s.visitors[ip], lim, now))
    && Settled(s.shared, lim, now)
    && |s.visitors| <= MAX_VISITORS
  }

  lemma {:induction false} FewerKeys(a: set<string>, b: set<string>)
    requires a <= b
    ensures |a| <= |b|
  {
    if a != {} {
      var x :| x in a;
      FewerKeys(a - {x}, b - {x});
    }
  }

  lemma EvictionKeepsValid(s: State, lim: Limits, now: real, t: real)
    requires Valid(s, lim, now) && now <= t
    ensures Valid(s.(visitors := EvictIdle(s.visitors, lim, t)), lim, t)
  {
    FewerKeys(EvictIdle(s.visitors, lim, t).Keys, s.visitors.Keys);
  }

  lemma RoutingKeepsValid(s: State, lim: Limits, key: string, now: real, t: real)
    requires Valid(s, lim, now) && now <= t
    ensures Valid(s.(visitors := Routed(s.visitors, lim, key, t)), lim, t)
  {
    EvictionKeepsValid(s, lim, now, t);
  }

  lemma ChargeKeepsValid(s: State, lim: Limits, key: string, t: real)
    requires Sensible(lim) && Valid(s, lim, t)
    ensures Valid(Charged(s, lim, key, t).0, lim, t)
  {
    LevelGrows(s.shared, lim, t, t);
    if key in s.visitors {
      LevelGrows(s.visitors[key], lim, t, t);
      assert Charged(s, lim, key, t).0.visitors.Keys == s.visitors.Keys;
    }
  }

  lemma StepKeepsValid(s: State, lim: Limits, e: Event, now: real)
    requires Sensible(lim) && Valid(s, lim, now) && now <= e.at
    ensures Valid(Step(s, lim, e), lim, e.at)
  {
    match e
    case Call(key, t) =>
      RoutingKeepsValid(s, lim, key, now, t);
      ChargeKeepsValid(s.(visitors := Routed(s.visitors, lim, key, t)), lim, key, t);
    case Sweep(t) =>
      EvictionKeepsValid(s, lim, now, t);
  }

  /** However many keys arrive, the map never outgrows its cap. */
  lemma {:induction false} CapHolds(s: State, lim: Limits, es: seq<Event>, from: real, to: real)
    requires Sensible(lim) && Valid(s, lim, from) && Ordered(es, from, to)
    ensures Valid(After(s, lim, es), lim, to) && |After(s, lim, es).visitors| <= MAX_VISITORS
    decreases es
  {
    if es != [] {
      StepKeepsValid(s, lim, es[0], from);
      CapHolds(Step(s, lim, es[0]), lim, es[1..], es[0].at, to);
    }
  }

  // ---- Against ideal buckets -----------------------------------------------------------

  /** A key nobody keeps a bucket for stands at a full one. */
  function LevelOf(buckets: Buckets, lim: Limits, key: string, t: real): real {
    if key in buckets then Level(buckets[key], lim, t) else lim.burst as real
  }

  function IdealAllow(ideal: Buckets, lim: Limits, key: string, t: real): (Buckets, bool) {
    var (k, granted) := Spend(if key in ideal then ideal[key] else Full(lim, t), lim, t);
    (ideal[key := k], granted)
  }

  function Answers(s: State, lim: Limits, es: seq<Event>): seq<bool>
    decreases es
  {
    if es == [] then []
    else (match es[0] case Call(key, t) => [Allow(s, lim, key, t).1] case Sweep(_) => [])
         + Answers(Step(s, lim, es[0]), lim, es[1..])
  }

  function IdealAnswers(ideal: Buckets, lim: Limits, es: seq<Event>): seq<bool>
    decreases es
  {
    if es == [] then []
    else match es[0]
      case Call(key, t) =>
        [IdealAllow(ideal, lim, key, t).1] + IdealAnswers(IdealAllow(ideal, lim, key, t).0, lim, es[1..])
      case Sweep(_) => IdealAnswers(ideal, lim, es[1..])
  }

  function IdealEnd(ideal: Buckets, lim: Limits, es: seq<Event>): Buckets
    decreases es
  {
    if es == [] then ideal
    else match es[0]
      case Call(key, t) => IdealEnd(IdealAllow(ideal, lim, key, t).0, lim, es[1..])
      case Sweep(_) => IdealEnd(ideal, lim, es[1..])
  }

  ghost predicate NeverShared(s: State, lim: Limits, es: seq<Event>)
    decreases es
  {
    es == [] ||
    ((es[0].Call? ==> !UsesShared(s, lim, es[0].key, es[0].at)) && NeverShared(Step(s, lim, es[0]), lim, es[1..]))
  }

  ghost predicate AllSettled(buckets: Buckets, lim: Limits, now: real) {
    forall key :: key in buckets ==> Settled(buckets[key], lim, now)
  }

  /** Same tokens for every key now and, if nobody calls, at any later time. */
  ghost predicate SameLevels(a: Buckets, b: Buckets, lim: Limits, now: real) {
    forall key, t :: now <= t ==> LevelOf(a, lim, key, t) == LevelOf(b, lim, key, t)
  }

  lemma EvictionInvisible(visitors: Buckets, lim: Limits, now: real)
    requires Sensible(lim) && AllSettled(visitors, lim, now)
    ensures SameLevels(EvictIdle(visitors, lim, now), visitors, lim, now)
  {
    forall key, t | now <= t
      ensures LevelOf(EvictIdle(visitors, lim, now), lim, key, t) == LevelOf(visitors, lim, key, t)
    {
      if key in visitors { LevelGrows(visitors[key], lim, now, t); }
    }
  }

  /** Once enough has flowed since its last grant to fill it, an idle bucket is dropped. */
  lemma IdleIsEvicted(visitors: Buckets, lim: Limits, ip: string, now: real)
    requires Sensible(lim) && AllSettled(visitors, lim, now) && ip in visitors
    requires Inflow(lim, visitors[ip].last, now) >= lim.burst as real - visitors[ip].tokens
    ensures ip !in EvictIdle(visitors, lim, now)
  {
    LevelGrows(visitors[ip], lim, now, now);
  }

  /** A call falls back on the shared bucket exactly when its key has none and as many
      others as the map may hold have spent tokens they have not got back. */
  lemma SharedIffFullOfSpenders(s: State, lim: Limits, key: string, t: real)
    ensures UsesShared(s, lim, key, t) <==>
              && key !in s.visitors
              && |set ip | ip in s.visitors && Level(s.visitors[ip], lim, t) < lim.burst as real| >= 50000
  {
    var kept := set ip | ip in s.visitors && Level(s.visitors[ip], lim, t) < lim.burst as real;
    assert EvictIdle(s.visitors, lim, t).Keys == kept;
    assert |EvictIdle(s.visitors, lim, t)| == |kept| && |s.visitors| == |s.visitors.Keys|;
    FewerKeys(kept, s.visitors.Keys);
  }

  lemma FreshInvisible(visitors: Buckets, lim: Limits, key: string, now: real)
    requires Sensible(lim) && key !in visitors
    ensures SameLevels(visitors[key := Full(lim, now)], visitors, lim, now)
  {
    forall t | now <= t ensures Level(Full(lim, now), lim, t) == lim.burst as real {
      LevelGrows(Full(lim, now), lim, now, t);
    }
  }

  lemma RoutingInvisible(visitors: Buckets, lim: Limits, key: string, now: real)
    requires Sensible(lim) && AllSettled(visitors, lim, now)
    ensures SameLevels(Routed(visitors, lim, key, now), visitors, lim, now)
  {
    EvictionInvisible(visitors, lim, now);
    if key !in visitors {
      FreshInvisible(visitors, lim, key, now);
      FreshInvisible(EvictIdle(visitors, lim, now), lim, key, now);
    }
  }

  lemma SpendLowers(k: Bucket, lim: Limits, t: real)
    requires Sensible(lim) && Settled(k, lim, t)
    ensures Settled(Spend(k, lim, t).0, lim, t)
    ensures Level(Spend(k, lim, t).0, lim, t) == Level(k, lim, t) - (if Spend(k, lim, t).1 then 1.0 else 0.0)
  {
    LevelGrows(k, lim, t, t);
  }

  /** Buckets with the same tokens from now on stay alike when both are asked. */
  lemma SpendAlike(k: Bucket, l: Bucket, lim: Limits, t: real, u: real)
    requires Level(k, lim, t) == Level(l, lim, t) && Level(k, lim, u) == Level(l, lim, u)
    ensures Spend(k, lim, t).1 == Spend(l, lim, t).1
    ensures Level(Spend(k, lim, t).0, lim, u) == Level(Spend(l, lim, t).0, lim, u)
  {
  }

  lemma CallsAgree(s: State, ideal: Buckets, lim: Limits, key: string, t: real)
    requires Sensible(lim) && AllSettled(s.visitors, lim, t) && SameLevels(s.visitors, ideal, lim, t)
    requires !UsesShared(s, lim, key, t)
    ensures Allow(s, lim, key, t).1 == IdealAllow(ideal, lim, key, t).1
    ensures SameLevels(Allow(s, lim, key, t).0.visitors, IdealAllow(ideal, lim, key, t).0, lim, t)
  {
    var visitors := Routed(s.visitors, lim, key, t);
    var own, ideally := visitors[key], if key in ideal then ideal[key] else Full(lim, t);
    RoutingInvisible(s.visitors, lim, key, t);
    forall u | t <= u ensures Level(own, lim, u) == Level(ideally, lim, u) {
      assert LevelOf(visitors, lim, key, u) == LevelOf(s.visitors, lim, key, u) == LevelOf(ideal, lim, key, u);
      if key !in ideal { LevelGrows(Full(lim, t), lim, t, u); }
    }
    var after, idealAfter := Allow(s, lim, key, t).0.visitors, IdealAllow(ideal, lim, key, t).0;
    forall other, u | t <= u ensures LevelOf(after, lim, other, u) == LevelOf(idealAfter, lim, other, u) {
      if other == key {
        SpendAlike(own, ideally, lim, t, u);
      } else {
        assert LevelOf(visitors, lim, other, u) == LevelOf(s.visitors, lim, other, u) == LevelOf(ideal, lim, other, u);
      }
    }
    SpendAlike(own, ideally, lim, t, t);
  }

  lemma LaterStillSame(a: Buckets, b: Buckets, lim: Limits, now: real, later: real)
    requires SameLevels(a, b, lim, now) && now <= later
    ensures SameLevels(a, b, lim, later)
  {
  }

  /** A run that never falls back on the shared bucket answers exactly as if every
      key had its own bucket forever, whenever evictions happen. */
  lemma {:induction false} CappedIsIdeal(s: State, ideal: Buckets, lim: Limits, es: seq<Event>, from: real, to: real)
    requires Sensible(lim) && Valid(s, lim, from) && Ordered(es, from, to)
    requires SameLevels(s.visitors, ideal, lim, from) && NeverShared(s, lim, es)
    ensures Answers(s, lim, es) == IdealAnswers(ideal, lim, es)
    decreases es
  {
    if es != [] {
      var e := es[0];
      StepKeepsValid(s, lim, e, from);
      LaterStillSame(s.visitors, ideal, lim, from, e.at);
      if e.Call? {
        CallsAgree(s, ideal, lim, e.key, e.at);
        CappedIsIdeal(Step(s, lim, e), IdealAllow(ideal, lim, e.key, e.at).0, lim, es[1..], e.at, to);
      } else {
        EvictionInvisible(s.visitors, lim, e.at);
        CappedIsIdeal(Step(s, lim, e), ideal, lim, es[1..], e.at, to);
      }
    }
  }

  // ---- Grants in a window ------------------------------------------------------------------

  predicate OwnGrant(s: State, lim: Limits, e: Event, key: string) {
    e.Call? && e.key == key && !UsesShared(s, lim, key, e.at) && Allow(s, lim, key, e.at).1
  }

  predicate SharedGrant(s: State, lim: Limits, e: Event, key: Option<string>) {
    e.Call? && (key.None? || key.value == e.key) && UsesShared(s, lim, e.key, e.at) && Allow(s, lim, e.key, e.at).1
  }

  /** Grants to one key from its own bucket, however often that is rebuilt. */
  function OwnGrants(s: State, lim: Limits, es: seq<Event>, key: string): nat
    decreases es
  {
    if es == [] then 0
    else (if OwnGrant(s, lim, es[0], key) then 1 else 0) + OwnGrants(Step(s, lim, es[0]), lim, es[1..], key)
  }

  /** Grants out of the shared bucket, to one key or (None) to anybody. */
  function SharedGrants(s: State, lim: Limits, es: seq<Event>, key: Option<string>): nat
    decreases es
  {
    if es == [] then 0
    else (if SharedGrant(s, lim, es[0], key) then 1 else 0) + SharedGrants(Step(s, lim, es[0]), lim, es[1..], key)
  }

  lemma RoutedSettled(visitors: Buckets, lim: Limits, key: string, t: real)
    requires Sensible(lim) && AllSettled(visitors, lim, t)
    ensures AllSettled(Routed(visitors, lim, key, t), lim, t)
  {
  }

  /** A step takes from a key's level exactly what it grants out of it. */
  lemma OwnStep(s: State, lim: Limits, e: Event, key: string)
    requires Sensible(lim) && AllSettled(s.visitors, lim, e.at)
    ensures LevelOf(Step(s, lim, e).visitors, lim, key, e.at) + (if OwnGrant(s, lim, e, key) then 1.0 else 0.0)
         == LevelOf(s.visitors, lim, key, e.at)
  {
    if e.Call? {
      var visitors := Routed(s.visitors, lim, e.key, e.at);
      RoutingInvisible(s.visitors, lim, e.key, e.at);
      RoutedSettled(s.visitors, lim, e.key, e.at);
      assert LevelOf(visitors, lim, key, e.at) == LevelOf(s.visitors, lim, key, e.at);
      if e.key in visitors { SpendLowers(visitors[e.key], lim, e.at); }
    } else {
      EvictionInvisible(s.visitors, lim, e.at);
    }
  }

  lemma OwnLevelGrows(s: State, lim: Limits, key: string, t: real, u: real)
    requires Sensible(lim) && AllSettled(s.visitors, lim, t) && t <= u
    ensures LevelOf(s.visitors, lim, key, u) <= LevelOf(s.visitors, lim, key, t) + Inflow(lim, t, u)
    ensures AllSettled(s.visitors, lim, u)
  {
    if key in s.visitors { LevelGrows(s.visitors[key], lim, t, u); }
  }

  lemma SharedStep(s: State, lim: Limits, e: Event)
    requires Sensible(lim) && Settled(s.shared, lim, e.at)
    ensures Level(Step(s, lim, e).shared, lim, e.at) + (if SharedGrant(s, lim, e, None) then 1.0 else 0.0)
         == Level(s.shared, lim, e.at)
  {
    SpendLowers(s.shared, lim, e.at);
  }

  /** What is granted and left after a step comes out of what there was and what has
      flowed in. */
  lemma OwnAccount(s: State, lim: Limits, e: Event, key: string, from: real)
    requires Sensible(lim) && Valid(s, lim, from) && from <= e.at
    ensures (if OwnGrant(s, lim, e, key) then 1.0 else 0.0) + LevelOf(Step(s, lim, e).visitors, lim, key, e.at)
         <= LevelOf(s.visitors, lim, key, from) + Inflow(lim, from, e.at)
  {
    OwnLevelGrows(s, lim, key, from, e.at);
    OwnStep(s, lim, e, key);
  }

  lemma SharedAccount(s: State, lim: Limits, e: Event, from: real)
    requires Sensible(lim) && Valid(s, lim, from) && from <= e.at
    ensures (if SharedGrant(s, lim, e, None) then 1.0 else 0.0) + Level(Step(s, lim, e).shared, lim, e.at)
         <= Level(s.shared, lim, from) + Inflow(lim, from, e.at)
  {
    LevelGrows(s.shared, lim, from, e.at);
    SharedStep(s, lim, e);
  }

  lemma Accounts(now: nat, later: nat, left: real, mid: real, start: real, lim: Limits, from: real, at: real, to: real)
    requires now as real + mid <= start + Inflow(lim, from, at)
    requires later as real + left <= mid + Inflow(lim, at, to)
    ensures (now + later) as real + left <= start + Inflow(lim, from, to)
  {
  }

  lemma OwnExtends(s: State, lim: Limits, es: seq<Event>, key: string, from: real, to: real)
    requires Sensible(lim) && Valid(s, lim, from) && es != [] && from <= es[0].at
    requires var next := Step(s, lim, es[0]);
             OwnGrants(next, lim, es[1..], key) as real + LevelOf(After(s, lim, es).visitors, lim, key, to)
             <= LevelOf(next.visitors, lim, key, es[0].at) + Inflow(lim, es[0].at, to)
    ensures OwnGrants(s, lim, es, key) as real + LevelOf(After(s, lim, es).visitors, lim, key, to)
         <= LevelOf(s.visitors, lim, key, from) + Inflow(lim, from, to)
  {
    var e, next := es[0], Step(s, lim, es[0]);
    OwnAccount(s, lim, e, key, from);
    Accounts(if OwnGrant(s, lim, e, key) then 1 else 0, OwnGrants(next, lim, es[1..], key),
             LevelOf(After(s, lim, es).visitors, lim, key, to), LevelOf(next.visitors, lim, key, e.at),
             LevelOf(s.visitors, lim, key, from), lim, from, e.at, to);
  }

  lemma {:induction false} OwnPotential(s: State, lim: Limits, es: seq<Event>, key: string, from: real, to: real)
    requires Sensible(lim) && Valid(s, lim, from) && Ordered(es, from, to)
    ensures OwnGrants(s, lim, es, key) as real + LevelOf(After(s, lim, es).visitors, lim, key, to)
         <= LevelOf(s.visitors, lim, key, from) + Inflow(lim, from, to)
    decreases es
  {
    if es == [] {
      OwnLevelGrows(s, lim, key, from, to);
    } else {
      StepKeepsValid(s, lim, es[0], from);
      OwnPotential(Step(s, lim, es[0]), lim, es[1..], key, es[0].at, to);
      OwnExtends(s, lim, es, key, from, to);
    }
  }

  lemma {:induction false} SharedPotential(s: State, lim: Limits, es: seq<Event>, from: real, to: real)
    requires Sensible(lim) && Valid(s, lim, from) && Ordered(es, from, to)
    ensures SharedGrants(s, lim, es, None) as real + Level(After(s, lim, es).shared, lim, to)
         <= Level(s.shared, lim, from) + Inflow(lim, from, to)
    decreases es
  {
    if es == [] {
      LevelGrows(s.shared, lim, from, to);
    } else {
      var e, next := es[0], Step(s, lim, es[0]);
      StepKeepsValid(s, lim, e, from);
      SharedPotential(next, lim, es[1..], e.at, to);
      SharedAccount(s, lim, e, from);
      Accounts(if SharedGrant(s, lim, e, None) then 1 else 0, SharedGrants(next, lim, es[1..], None),
               Level(After(s, lim, es).shared, lim, to), Level(next.shared, lim, e.at),
               Level(s.shared, lim, from), lim, from, e.at, to);
    }
  }

  lemma {:induction false} KeySharesTheShared(s: State, lim: Limits, es: seq<Event>, key: string)
    ensures SharedGrants(s, lim, es, Some(key)) <= SharedGrants(s, lim, es, None)
    decreases es
  {
    if es != [] { KeySharesTheShared(Step(s, lim, es[0]), lim, es[1..], key); }
  }

  lemma GrantsWithinInflow(s: State, lim: Limits, es: seq<Event>, key: string, from: real, to: real)
    requires Sensible(lim) && Valid(s, lim, from) && Ordered(es, from, to)
    ensures var bound := lim.burst as real + Inflow(lim, from, to);
            && OwnGrants(s, lim, es, key) as real <= bound
            && SharedGrants(s, lim, es, None) as real <= bound
            && (OwnGrants(s, lim, es, key) + SharedGrants(s, lim, es, Some(key))) as real <= 2.0 * bound
  {
    OwnPotential(s, lim, es, key, from, to);
    SharedPotential(s, lim, es, from, to);
    KeySharesTheShared(s, lim, es, key);
    CapHolds(s, lim, es, from, to);
    var after := After(s, lim, es);
    LevelGrows(s.shared, lim, from, from);
    LevelGrows(after.shared, lim, to, to);
    if key in s.visitors { LevelGrows(s.visitors[key], lim, from, from); }
    if key in after.visitors { LevelGrows(after.visitors[key], lim, to, to); }
  }

  /** In a window of length T a key's own bucket grants at most b + rT however often
      it is evicted and rebuilt, the shared bucket at most b + rT to everybody
      together, and so any key gets at most twice that. */
  lemma GrantsAreBounded(s: State, rate: real, burst: nat, es: seq<Event>, key: string, from: real, to: real)
    requires rate >= 0.0 && Valid(s, PerSecond(rate, burst), from) && Ordered(es, from, to)
    ensures var lim, bound := PerSecond(rate, burst), burst as real + rate * (to - from);
            && OwnGrants(s, lim, es, key) as real <= bound
            && SharedGrants(s, lim, es, None) as real <= bound
            && (OwnGrants(s, lim, es, key) + SharedGrants(s, lim, es, Some(key))) as real <= 2.0 * bound
  {
    PerSecondSensible(rate, burst, from, to);
    GrantsWithinInflow(s, PerSecond(rate, burst), es, key, from, to);
  }
}
