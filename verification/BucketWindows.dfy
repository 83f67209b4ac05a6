/** What a bucket grants, said without buckets: a call is granted exactly when every window
    that ends with it has room for it. */
module BucketWindows {
  import opened Prelude
  import opened TokenBuckets

  /** When the calls of one key were granted. */
  function KeyGrants(ideal: Buckets, lim: Limits, es: seq<Event>, key: string): seq<real>
    decreases es
  {
    if es == [] then []
    else match es[0]
      case Call(k, t) =>
        (if k == key && IdealAllow(ideal, lim, key, t).1 then [t] else [])
        + KeyGrants(IdealAllow(ideal, lim, k, t).0, lim, es[1..], key)
      case Sweep(_) => KeyGrants(ideal, lim, es[1..], key)
  }

  /** x tokens more can be had at t without any window since an earlier grant exceeding the
      burst and what has flowed in. */
  ghost predicate Room(lim: Limits, grants: seq<real>, t: real, x: real) {
    forall i :: 0 <= i < |grants| ==> (|grants| - i) as real + x <= lim.burst as real + Inflow(lim, grants[i], t)
  }

  /** The key's level, now and later, is the room its grants leave. */
  ghost predicate LevelIsRoom(buckets: Buckets, lim: Limits, key: string, grants: seq<real>, now: real) {
    forall t, x :: now <= t && x <= lim.burst as real ==>
      (LevelOf(buckets, lim, key, t) >= x <==> Room(lim, grants, t, x))
  }

  lemma RoomSnoc(lim: Limits, grants: seq<real>, u: real, t: real, x: real)
    ensures Room(lim, grants + [u], t, x) <==>
              && Room(lim, grants, u, x + 1.0 - Inflow(lim, u, t)) && 1.0 + x <= lim.burst as real + Inflow(lim, u, t)
  {
    var longer := grants + [u];
    assert longer[|grants|] == u;
    assert forall i :: 0 <= i < |grants| ==> longer[i] == grants[i];
    forall i | 0 <= i < |grants|
      ensures (|longer| - i) as real + x <= lim.burst as real + Inflow(lim, grants[i], t) <==>
              (|grants| - i) as real + (x + 1.0 - Inflow(lim, u, t)) <= lim.burst as real + Inflow(lim, grants[i], u)
    {
    }
  }

  /** A grant at u takes one token: what is left at t is at least x exactly when there was
      enough at u, no more than fits. */
  lemma SpentLevel(k: Bucket, lim: Limits, u: real, t: real, x: real)
    requires Sensible(lim) && Settled(k, lim, u) && u <= t && x <= lim.burst as real && Level(k, lim, u) >= 1.0
    ensures var y := x + 1.0 - Inflow(lim, u, t);
            Level(Spend(k, lim, u).0, lim, t) >= x <==> y <= lim.burst as real && Level(k, lim, u) >= y
  {
    LevelGrows(k, lim, u, u);
  }

  lemma GrantTakesRoom(ideal: Buckets, lim: Limits, key: string, grants: seq<real>, u: real)
    requires Sensible(lim) && AllSettled(ideal, lim, u) && LevelIsRoom(ideal, lim, key, grants, u)
    requires IdealAllow(ideal, lim, key, u).1
    ensures LevelIsRoom(IdealAllow(ideal, lim, key, u).0, lim, key, grants + [u], u)
  {
    var k := if key in ideal then ideal[key] else Full(lim, u);
    var after := IdealAllow(ideal, lim, key, u).0;
    forall t, x | u <= t && x <= lim.burst as real
      ensures LevelOf(after, lim, key, t) >= x <==> Room(lim, grants + [u], t, x)
    {
      var y := x + 1.0 - Inflow(lim, u, t);
      SpentLevel(k, lim, u, t, x);
      RoomSnoc(lim, grants, u, t, x);
      if y <= lim.burst as real {
        assert LevelOf(ideal, lim, key, u) >= y <==> Room(lim, grants, u, y);
      }
    }
  }

  /** Nobody else's call, and no refusal, takes room. */
  lemma OtherwiseSameRoom(ideal: Buckets, lim: Limits, k: string, key: string, grants: seq<real>, u: real)
    requires Sensible(lim) && AllSettled(ideal, lim, u) && LevelIsRoom(ideal, lim, key, grants, u)
    requires k != key || !IdealAllow(ideal, lim, key, u).1
    ensures LevelIsRoom(IdealAllow(ideal, lim, k, u).0, lim, key, grants, u)
  {
    var after := IdealAllow(ideal, lim, k, u).0;
    forall t | u <= t ensures LevelOf(after, lim, key, t) == LevelOf(ideal, lim, key, t) {
      LevelGrows(Full(lim, u), lim, u, t);
    }
  }

  lemma CallKeepsSettled(ideal: Buckets, lim: Limits, k: string, now: real, u: real)
    requires Sensible(lim) && AllSettled(ideal, lim, now) && now <= u
    ensures AllSettled(ideal, lim, u) && AllSettled(IdealAllow(ideal, lim, k, u).0, lim, u)
  {
    SpendLowers(if k in ideal then ideal[k] else Full(lim, u), lim, u);
  }

  lemma {:induction false} RoomAfterRun(ideal: Buckets, lim: Limits, es: seq<Event>, key: string,
      grants: seq<real>, from: real, to: real)
    requires Sensible(lim) && AllSettled(ideal, lim, from) && Ordered(es, from, to)
    requires LevelIsRoom(ideal, lim, key, grants, from)
    ensures LevelIsRoom(IdealEnd(ideal, lim, es), lim, key, grants + KeyGrants(ideal, lim, es, key), to)
    decreases es
  {
    if es == [] {
      assert grants + [] == grants;
    } else {
      var u := es[0].at;
      assert LevelIsRoom(ideal, lim, key, grants, u);
      match es[0]
      case Sweep(_) =>
        RoomAfterRun(ideal, lim, es[1..], key, grants, u, to);
      case Call(k, _) =>
        var (after, granted) := IdealAllow(ideal, lim, k, u);
        CallKeepsSettled(ideal, lim, k, from, u);
        if k == key && granted {
          GrantTakesRoom(ideal, lim, key, grants, u);
          RoomAfterRun(after, lim, es[1..], key, grants + [u], u, to);
          assert grants + [u] + KeyGrants(after, lim, es[1..], key) == grants + KeyGrants(ideal, lim, es, key);
        } else {
          OtherwiseSameRoom(ideal, lim, k, key, grants, u);
          RoomAfterRun(after, lim, es[1..], key, grants, u, to);
          assert KeyGrants(ideal, lim, es, key) == KeyGrants(after, lim, es[1..], key);
        }
    }
  }

  lemma {:induction false} EndSettled(ideal: Buckets, lim: Limits, es: seq<Event>, from: real, to: real)
    requires Sensible(lim) && AllSettled(ideal, lim, from) && Ordered(es, from, to)
    ensures AllSettled(IdealEnd(ideal, lim, es), lim, to)
    decreases es
  {
    if es != [] {
      if es[0].Call? { CallKeepsSettled(ideal, lim, es[0].key, from, es[0].at); }
      var after := if es[0].Call? then IdealAllow(ideal, lim, es[0].key, es[0].at).0 else ideal;
      EndSettled(after, lim, es[1..], es[0].at, to);
    }
  }

  /** With one grant more at t, every window from an earlier grant until t holds no more
      than the burst and what has flowed in since its beginning. */
  ghost predicate OneMoreFits(lim: Limits, grants: seq<real>, t: real) {
    forall i :: 0 <= i < |grants| ==> (|grants| - i + 1) as real <= lim.burst as real + Inflow(lim, grants[i], t)
  }

  lemma OneMoreIsRoom(lim: Limits, grants: seq<real>, t: real)
    ensures Room(lim, grants, t, 1.0) <==> OneMoreFits(lim, grants, t)
  {
  }

  lemma GrantedIffLevel(ideal: Buckets, lim: Limits, key: string, t: real)
    requires Sensible(lim) && AllSettled(ideal, lim, t)
    ensures IdealAllow(ideal, lim, key, t).1 <==> lim.burst >= 1 && LevelOf(ideal, lim, key, t) >= 1.0
  {
    LevelGrows(Full(lim, t), lim, t, t);
    if key in ideal { LevelGrows(ideal[key], lim, t, t); }
  }

  lemma GrantedIffRoom(ideal: Buckets, lim: Limits, key: string, grants: seq<real>, t: real)
    requires Sensible(lim) && AllSettled(ideal, lim, t) && LevelIsRoom(ideal, lim, key, grants, t)
    ensures IdealAllow(ideal, lim, key, t).1 <==> lim.burst >= 1 && Room(lim, grants, t, 1.0)
  {
    GrantedIffLevel(ideal, lim, key, t);
    assert lim.burst >= 1 ==> 1.0 <= lim.burst as real;
    assert lim.burst >= 1 ==> (LevelOf(ideal, lim, key, t) >= 1.0 <==> Room(lim, grants, t, 1.0));
  }

  /** With a bucket of its own a key's call at t, whatever was called before, is granted
      exactly when no window from one of its earlier grants until t would then hold more
      grants than the burst and what has flowed in since. Its first calls are granted as
      long as the burst lasts. */
  lemma GrantedIffEveryWindowHasRoom(lim: Limits, es: seq<Event>, key: string, from: real, t: real)
    requires Sensible(lim) && Ordered(es, from, t)
    ensures var grants := KeyGrants(map[], lim, es, key);
            IdealAllow(IdealEnd(map[], lim, es), lim, key, t).1 <==>
              lim.burst >= 1 && OneMoreFits(lim, grants, t)
  {
    var grants := KeyGrants(map[], lim, es, key);
    assert LevelIsRoom(map[], lim, key, [], from);
    RoomAfterRun(map[], lim, es, key, [], from, t);
    assert [] + grants == grants;
    EndSettled(map[], lim, es, from, t);
    GrantedIffRoom(IdealEnd(map[], lim, es), lim, key, grants, t);
    OneMoreIsRoom(lim, grants, t);
  }
}
