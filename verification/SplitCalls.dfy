/** A limiter call as the two steps it is: looking the bucket up, under the lock, and
    spending from it, not under the lock. Buckets are objects here: a call may hold one
    that has meanwhile been evicted. */
module SplitCalls {
  import opened Prelude
  import opened TokenBuckets

  type Ref = nat
  type Pid = nat

  datatype Held = Held(key: string, bucket: Ref)

  /** `pending` are the calls between their two steps. */
  datatype Split = Split(heap: map<Ref, Bucket>, visitors: map<string, Ref>, shared: Ref, pending: map<Pid, Held>)

  datatype Half = LookUp(p: Pid, key: string, ref: Ref, at: real) | SpendFrom(p: Pid, at: real) | Clean(at: real)

  /** The map of buckets as values. */
  function View(s: Split): Buckets
    requires forall k :: k in s.visitors ==> s.visitors[k] in s.heap
  {
    map k | k in s.visitors :: s.heap[s.visitors[k]]
  }

  function Evicted(s: Split, lim: Limits, t: real): map<string, Ref>
    requires forall k :: k in s.visitors ==> s.visitors[k] in s.heap
  {
    map k | k in s.visitors && Level(s.heap[s.visitors[k]], lim, t) < lim.burst as real :: s.visitors[k]
  }

  /** getVisitor; `ref` is where a new bucket would be allocated. */
  function AfterLookUp(s: Split, lim: Limits, p: Pid, key: string, ref: Ref, t: real): Split
    requires forall k :: k in s.visitors ==> s.visitors[k] in s.heap
  {
    if key in s.visitors then s.(pending := s.pending[p := Held(key, s.visitors[key])])
    else
      var room := if |s.visitors| >= MAX_VISITORS then Evicted(s, lim, t) else s.visitors;
      if |room| >= MAX_VISITORS then s.(visitors := room, pending := s.pending[p := Held(key, s.shared)])
      else Split(s.heap[ref := Full(lim, t)], room[key := ref], s.shared, s.pending[p := Held(key, ref)])
  }

  function AfterSpend(s: Split, lim: Limits, p: Pid, t: real): Split
    requires p in s.pending && s.pending[p].bucket in s.heap
  {
    var ref := s.pending[p].bucket;
    s.(heap := s.heap[ref := Spend(s.heap[ref], lim, t).0], pending := s.pending - {p})
  }

  /** The answer of the call p completes at t. */
  function Reply(s: Split, lim: Limits, p: Pid, t: real): bool
    requires p in s.pending && s.pending[p].bucket in s.heap
  {
    Spend(s.heap[s.pending[p].bucket], lim, t).1
  }

  /** The bucket looked up is still the key's. */
  predicate Attached(s: Split, p: Pid)
    requires p in s.pending
  {
    s.pending[p].key in s.visitors && s.visitors[s.pending[p].key] == s.pending[p].bucket
  }

  /** The bucket looked up was the key's own and has been evicted since. */
  predicate Detached(s: Split, p: Pid)
    requires p in s.pending
  {
    s.pending[p].bucket != s.shared && !Attached(s, p)
  }

  /** Objects are where they are said to be, no two keys share one, and a call holds its
      own key's bucket, present or past, or the shared one. */
  ghost predicate Shaped(s: Split) {
    && s.shared in s.heap
    && (forall k :: k in s.visitors ==> s.visitors[k] in s.heap && s.visitors[k] != s.shared)
    && (forall k, l :: k in s.visitors && l in s.visitors && s.visitors[k] == s.visitors[l] ==> k == l)
    && (forall p :: p in s.pending ==> s.pending[p].bucket in s.heap)
    && (forall p, k :: p in s.pending && k in s.visitors && s.visitors[k] == s.pending[p].bucket ==>
          k == s.pending[p].key)
    && (forall p, q :: p in s.pending && q in s.pending && s.pending[p].bucket == s.pending[q].bucket != s.shared ==>
          s.pending[p].key == s.pending[q].key)
  }

  ghost predicate HeapSettled(s: Split, lim: Limits, now: real) {
    forall ref :: ref in s.heap ==> Settled(s.heap[ref], lim, now)
  }

  ghost predicate Sound(s: Split, lim: Limits, now: real) {
    Shaped(s) && HeapSettled(s, lim, now)
  }

  /** A bucket dropped from under a call of this key was full, and still is. */
  ghost predicate DetachedAreFull(s: Split, lim: Limits, key: string, now: real) {
    forall p :: p in s.pending && s.pending[p].key == key && Detached(s, p) && s.pending[p].bucket in s.heap ==>
      Level(s.heap[s.pending[p].bucket], lim, now) == lim.burst as real
  }

  ghost predicate Inv(s: Split, lim: Limits, key: string, now: real) {
    Sound(s, lim, now) && DetachedAreFull(s, lim, key, now)
  }

  /** A half a call can take: a free process and address, a call under way. */
  ghost predicate Possible(s: Split, h: Half) {
    match h
    case LookUp(p, _, ref, _) => p !in s.pending && ref !in s.heap
    case SpendFrom(p, _) => p in s.pending
    case Clean(_) => true
  }

  function Next(s: Split, lim: Limits, h: Half): Split
    requires Shaped(s) && Possible(s, h)
  {
    match h
    case LookUp(p, key, ref, t) => AfterLookUp(s, lim, p, key, ref, t)
    case SpendFrom(p, t) => AfterSpend(s, lim, p, t)
    case Clean(t) => s.(visitors := Evicted(s, lim, t))
  }

  // ---- One step -------------------------------------------------------------------------

  lemma WaitingKeepsSound(s: Split, lim: Limits, now: real, later: real)
    requires Sensible(lim) && Sound(s, lim, now) && now <= later
    ensures Sound(s, lim, later)
    ensures forall key :: DetachedAreFull(s, lim, key, now) ==> DetachedAreFull(s, lim, key, later)
  {
    forall ref | ref in s.heap
      ensures Level(s.heap[ref], lim, now) == lim.burst as real ==> Level(s.heap[ref], lim, later) == lim.burst as real
    {
      LevelGrows(s.heap[ref], lim, now, later);
    }
  }

  lemma EvictingSparesDetached(s: Split, lim: Limits, key: string, t: real)
    requires Sensible(lim) && Inv(s, lim, key, t)
    ensures DetachedAreFull(s.(visitors := Evicted(s, lim, t)), lim, key, t)
  {
    var after := s.(visitors := Evicted(s, lim, t));
    forall p | p in after.pending && after.pending[p].key == key && Detached(after, p)
      ensures Level(s.heap[s.pending[p].bucket], lim, t) == lim.burst as real
    {
      LevelGrows(s.heap[s.pending[p].bucket], lim, t, t);
      assert p in s.pending && (Detached(s, p) || Attached(s, p));
    }
  }

  /** Eviction drops only full buckets. */
  lemma EvictingKeepsSound(s: Split, lim: Limits, t: real)
    requires Sensible(lim) && Sound(s, lim, t)
    ensures Sound(s.(visitors := Evicted(s, lim, t)), lim, t)
    ensures View(s.(visitors := Evicted(s, lim, t))) == EvictIdle(View(s), lim, t)
    ensures forall key :: DetachedAreFull(s, lim, key, t) ==>
              DetachedAreFull(s.(visitors := Evicted(s, lim, t)), lim, key, t)
  {
    forall key | DetachedAreFull(s, lim, key, t)
      ensures DetachedAreFull(s.(visitors := Evicted(s, lim, t)), lim, key, t)
    {
      EvictingSparesDetached(s, lim, key, t);
    }
  }

  lemma RoomSize(s: Split)
    requires Shaped(s)
    ensures |View(s)| == |s.visitors|
  {
    assert View(s).Keys == s.visitors.Keys;
    assert |View(s)| == |View(s).Keys| && |s.visitors| == |s.visitors.Keys|;
  }

  lemma Allocating(s: Split, lim: Limits, p: Pid, key: string, ref: Ref, t: real)
    requires Sensible(lim) && Sound(s, lim, t) && p !in s.pending && ref !in s.heap && key !in s.visitors
    ensures var after := Split(s.heap[ref := Full(lim, t)], s.visitors[key := ref], s.shared,
                               s.pending[p := Held(key, ref)]);
            && Sound(after, lim, t) && View(after) == View(s)[key := Full(lim, t)]
            && forall k :: DetachedAreFull(s, lim, k, t) ==> DetachedAreFull(after, lim, k, t)
  {
  }

  lemma FallingBack(s: Split, lim: Limits, p: Pid, key: string, t: real)
    requires Sensible(lim) && Sound(s, lim, t) && p !in s.pending
    ensures var after := s.(pending := s.pending[p := Held(key, s.shared)]);
            Sound(after, lim, t) && forall k :: DetachedAreFull(s, lim, k, t) ==> DetachedAreFull(after, lim, k, t)
  {
  }

  lemma MakingRoom(s: Split, lim: Limits, t: real) returns (room: Split)
    requires Sensible(lim) && Sound(s, lim, t)
    ensures room == s.(visitors := if |s.visitors| >= MAX_VISITORS then Evicted(s, lim, t) else s.visitors)
    ensures Sound(room, lim, t) && View(room) == RoomFor(View(s), lim, t) && |View(room)| == |room.visitors|
    ensures forall k :: DetachedAreFull(s, lim, k, t) ==> DetachedAreFull(room, lim, k, t)
  {
    RoomSize(s);
    if |s.visitors| >= MAX_VISITORS {
      EvictingKeepsSound(s, lim, t);
      room := s.(visitors := Evicted(s, lim, t));
    } else {
      room := s;
    }
    RoomSize(room);
  }

  lemma FindingRoutes(s: Split, lim: Limits, p: Pid, key: string, t: real)
    requires Sound(s, lim, t) && p !in s.pending && key in s.visitors
    ensures var after := s.(pending := s.pending[p := Held(key, s.visitors[key])]);
            Sound(after, lim, t) && forall k :: DetachedAreFull(s, lim, k, t) ==> DetachedAreFull(after, lim, k, t)
  {
  }

  lemma AddingRoutes(s: Split, lim: Limits, p: Pid, key: string, ref: Ref, t: real)
    requires Sensible(lim) && Sound(s, lim, t) && p !in s.pending && ref !in s.heap && key !in s.visitors
    ensures var after := AfterLookUp(s, lim, p, key, ref, t);
            && Sound(after, lim, t) && View(after) == Routed(View(s), lim, key, t)
            && (forall k :: DetachedAreFull(s, lim, k, t) ==> DetachedAreFull(after, lim, k, t))
            && p in after.pending && after.pending[p].key == key && !Detached(after, p)
  {
    var room := MakingRoom(s, lim, t);
    if |room.visitors| >= MAX_VISITORS {
      FallingBack(room, lim, p, key, t);
    } else {
      Allocating(room, lim, p, key, ref, t);
    }
  }

  /** Looking up leaves the values the map routes to, and hands out the key's bucket. */
  lemma LookUpRoutes(s: Split, lim: Limits, p: Pid, key: string, ref: Ref, t: real)
    requires Sensible(lim) && Sound(s, lim, t) && p !in s.pending && ref !in s.heap
    ensures var after := AfterLookUp(s, lim, p, key, ref, t);
            && Sound(after, lim, t) && View(after) == Routed(View(s), lim, key, t)
            && (forall k :: DetachedAreFull(s, lim, k, t) ==> DetachedAreFull(after, lim, k, t))
            && p in after.pending && after.pending[p].key == key && !Detached(after, p)
  {
    if key in s.visitors {
      FindingRoutes(s, lim, p, key, t);
    } else {
      AddingRoutes(s, lim, p, key, ref, t);
    }
  }

  /** Spending from an attached bucket is the key's own spend; any other spend leaves every
      key's tokens alone. */
  lemma SpendingRoutes(s: Split, lim: Limits, p: Pid, t: real)
    requires Sensible(lim) && Sound(s, lim, t) && p in s.pending
    ensures Sound(AfterSpend(s, lim, p, t), lim, t)
    ensures var key := s.pending[p].key;
            View(AfterSpend(s, lim, p, t)) ==
              if Attached(s, p) then View(s)[key := Spend(View(s)[key], lim, t).0] else View(s)
  {
    SpendLowers(s.heap[s.pending[p].bucket], lim, t);
  }

  /** A call leaves the evicted buckets of its key alone unless it holds one. */
  lemma SpendingSparesDetached(s: Split, lim: Limits, p: Pid, key: string, t: real)
    requires Sensible(lim) && Inv(s, lim, key, t) && p in s.pending
    requires s.pending[p].key == key ==> Attached(s, p)
    ensures DetachedAreFull(AfterSpend(s, lim, p, t), lim, key, t)
  {
    var after := AfterSpend(s, lim, p, t);
    forall q | q in after.pending && after.pending[q].key == key && Detached(after, q)
      ensures Level(after.heap[after.pending[q].bucket], lim, t) == lim.burst as real
    {
      assert q in s.pending && Detached(s, q);
    }
  }

  lemma NextKeepsSound(s: Split, lim: Limits, h: Half, now: real)
    requires Sensible(lim) && Sound(s, lim, now) && now <= h.at && Possible(s, h)
    ensures Sound(s, lim, h.at) && Sound(Next(s, lim, h), lim, h.at)
  {
    WaitingKeepsSound(s, lim, now, h.at);
    match h
    case LookUp(p, key, ref, t) => LookUpRoutes(s, lim, p, key, ref, t);
    case SpendFrom(p, t) => SpendingRoutes(s, lim, p, t);
    case Clean(t) => EvictingKeepsSound(s, lim, t);
  }

  lemma NextKeepsInv(s: Split, lim: Limits, h: Half, key: string, now: real)
    requires Sensible(lim) && Inv(s, lim, key, now) && now <= h.at && Possible(s, h)
    requires h.SpendFrom? && s.pending[h.p].key == key ==> Attached(s, h.p)
    ensures Inv(Next(s, lim, h), lim, key, h.at)
  {
    WaitingKeepsSound(s, lim, now, h.at);
    match h
    case LookUp(p, k, ref, t) => LookUpRoutes(s, lim, p, k, ref, t);
    case SpendFrom(p, t) =>
      SpendingRoutes(s, lim, p, t);
      SpendingSparesDetached(s, lim, p, key, t);
    case Clean(t) => EvictingKeepsSound(s, lim, t);
  }

  // ---- When a split call answers like the ideal bucket ---------------------------------------

  /** The key has the same tokens in both, now and, if it is not called, later. */
  ghost predicate SameLevel(a: Buckets, b: Buckets, lim: Limits, key: string, now: real) {
    forall t :: now <= t ==> LevelOf(a, lim, key, t) == LevelOf(b, lim, key, t)
  }

  /** A call that holds a bucket of its key's answers like the key's everlasting bucket
      exactly when the bucket it looked up is still the key's, or the key has a token now,
      or nobody ever gets one. */
  lemma SplitAnswersIff(s: Split, ideal: Buckets, lim: Limits, p: Pid, t: real)
    requires Sensible(lim) && p in s.pending && s.pending[p].bucket != s.shared
    requires Inv(s, lim, s.pending[p].key, t) && SameLevel(View(s), ideal, lim, s.pending[p].key, t)
    ensures var key := s.pending[p].key;
            Reply(s, lim, p, t) == IdealAllow(ideal, lim, key, t).1 <==>
              Attached(s, p) || lim.burst == 0 || LevelOf(View(s), lim, key, t) >= 1.0
  {
    var key := s.pending[p].key;
    var ideally := if key in ideal then ideal[key] else Full(lim, t);
    LevelGrows(Full(lim, t), lim, t, t);
    assert Level(ideally, lim, t) == LevelOf(ideal, lim, key, t) == LevelOf(View(s), lim, key, t);
    if lim.burst == 0 && key in s.visitors { LevelGrows(View(s)[key], lim, t, t); }
  }

  /** A call loses its bucket exactly when an eviction finds that bucket full: at a cleanup,
      or when another key asks for room in a full map. */
  lemma DetachedIffEvicted(s: Split, lim: Limits, h: Half, p: Pid)
    requires Shaped(s) && Possible(s, h) && p in s.pending && Attached(s, p) && h != SpendFrom(p, h.at)
    ensures p in Next(s, lim, h).pending
    ensures Attached(Next(s, lim, h), p) <==>
              !((h.Clean? || (h.LookUp? && h.key !in s.visitors && |s.visitors| >= MAX_VISITORS))
                && Level(s.heap[s.pending[p].bucket], lim, h.at) >= lim.burst as real)
  {
  }

  // ---- Runs -------------------------------------------------------------------------------

  ghost predicate Timely(hs: seq<Half>, from: real, to: real)
    decreases hs
  {
    if hs == [] then from <= to else from <= hs[0].at && Timely(hs[1..], hs[0].at, to)
  }

  /** Every half is possible where it comes. That the shape stays is NextKeepsSound. */
  ghost predicate Happens(s: Split, lim: Limits, hs: seq<Half>)
    decreases hs
  {
    hs == [] || (Shaped(s) && Possible(s, hs[0]) && Happens(Next(s, lim, hs[0]), lim, hs[1..]))
  }

  ghost function End(s: Split, lim: Limits, hs: seq<Half>): Split
    requires Happens(s, lim, hs)
    decreases hs
  {
    if hs == [] then s else End(Next(s, lim, hs[0]), lim, hs[1..])
  }

  predicate CompletesFor(s: Split, h: Half, key: string) {
    h.SpendFrom? && h.p in s.pending && s.pending[h.p].key == key
  }

  /** Every call of this key completes on the bucket it looked up while that is still its
      key's: not evicted in between, not the shared one. */
  ghost predicate Unbroken(s: Split, lim: Limits, hs: seq<Half>, key: string)
    requires Happens(s, lim, hs)
    decreases hs
  {
    hs == [] ||
    ((CompletesFor(s, hs[0], key) ==> Attached(s, hs[0].p)) && Unbroken(Next(s, lim, hs[0]), lim, hs[1..], key))
  }

  /** What the calls of one key are answered. */
  ghost function Replies(s: Split, lim: Limits, hs: seq<Half>, key: string): seq<bool>
    requires Happens(s, lim, hs)
    decreases hs
  {
    if hs == [] then []
    else (if CompletesFor(s, hs[0], key) then [Reply(s, lim, hs[0].p, hs[0].at)] else [])
         + Replies(Next(s, lim, hs[0]), lim, hs[1..], key)
  }

  /** The same calls taken whole, each at the moment it spends. */
  ghost function Wholes(s: Split, lim: Limits, hs: seq<Half>, key: string): seq<Event>
    requires Happens(s, lim, hs)
    decreases hs
  {
    if hs == [] then []
    else (if CompletesFor(s, hs[0], key) then [Event.Call(key, hs[0].at)] else [])
         + Wholes(Next(s, lim, hs[0]), lim, hs[1..], key)
  }

  lemma SpendStaysAlike(buckets: Buckets, ideal: Buckets, lim: Limits, key: string, t: real)
    requires Sensible(lim) && SameLevel(buckets, ideal, lim, key, t) && key in buckets
    ensures Spend(buckets[key], lim, t).1 == IdealAllow(ideal, lim, key, t).1
    ensures SameLevel(buckets[key := Spend(buckets[key], lim, t).0], IdealAllow(ideal, lim, key, t).0, lim, key, t)
  {
    var own, ideally := buckets[key], if key in ideal then ideal[key] else Full(lim, t);
    forall u | t <= u ensures Level(own, lim, u) == Level(ideally, lim, u) {
      assert LevelOf(buckets, lim, key, u) == LevelOf(ideal, lim, key, u);
      if key !in ideal { LevelGrows(Full(lim, t), lim, t, u); }
    }
    forall u | t <= u
      ensures Spend(own, lim, t).1 == Spend(ideally, lim, t).1
      ensures Level(Spend(own, lim, t).0, lim, u) == Level(Spend(ideally, lim, t).0, lim, u)
    {
      SpendAlike(own, ideally, lim, t, u);
    }
    assert Spend(own, lim, t).1 == Spend(ideally, lim, t).1 by { SpendAlike(own, ideally, lim, t, t); }
  }

  /** Nothing but a key's own completed call touches its tokens. */
  lemma OthersStayAlike(s: Split, lim: Limits, h: Half, key: string, now: real)
    requires Sensible(lim) && Sound(s, lim, now) && now <= h.at && Possible(s, h)
    requires CompletesFor(s, h, key) ==> !Attached(s, h.p)
    ensures SameLevel(View(Next(s, lim, h)), View(s), lim, key, h.at)
  {
    WaitingKeepsSound(s, lim, now, h.at);
    assert AllSettled(View(s), lim, h.at);
    match h
    case LookUp(p, k, ref, t) =>
      LookUpRoutes(s, lim, p, k, ref, t);
      RoutingInvisible(View(s), lim, k, t);
    case SpendFrom(p, t) => SpendingRoutes(s, lim, p, t);
    case Clean(t) =>
      EvictingKeepsSound(s, lim, t);
      EvictionInvisible(View(s), lim, t);
  }

  lemma StepStaysAlike(s: Split, ideal: Buckets, lim: Limits, h: Half, key: string, now: real)
    requires Sensible(lim) && Inv(s, lim, key, now) && SameLevel(View(s), ideal, lim, key, now) && now <= h.at
    requires Possible(s, h) && (CompletesFor(s, h, key) ==> Attached(s, h.p))
    ensures Inv(Next(s, lim, h), lim, key, h.at)
    ensures SameLevel(View(Next(s, lim, h)),
                      if CompletesFor(s, h, key) then IdealAllow(ideal, lim, key, h.at).0 else ideal, lim, key, h.at)
    ensures CompletesFor(s, h, key) ==> Reply(s, lim, h.p, h.at) == IdealAllow(ideal, lim, key, h.at).1
  {
    NextKeepsInv(s, lim, h, key, now);
    if CompletesFor(s, h, key) {
      WaitingKeepsSound(s, lim, now, h.at);
      SpendingRoutes(s, lim, h.p, h.at);
      SpendStaysAlike(View(s), ideal, lim, key, h.at);
    } else {
      OthersStayAlike(s, lim, h, key, now);
    }
  }

  /** However lookups, spends and cleanups interleave, and whatever becomes of other keys'
      calls: a key none of whose calls loses its bucket between its two steps, or falls
      back on the shared one, is answered exactly as if it had its own bucket forever. */
  lemma {:induction false} SplitCallsAreIdeal(s: Split, ideal: Buckets, lim: Limits, hs: seq<Half>, key: string,
      from: real, to: real)
    requires Sensible(lim) && Inv(s, lim, key, from) && SameLevel(View(s), ideal, lim, key, from)
    requires Timely(hs, from, to) && Happens(s, lim, hs) && Unbroken(s, lim, hs, key)
    ensures Replies(s, lim, hs, key) == IdealAnswers(ideal, lim, Wholes(s, lim, hs, key))
    ensures Inv(End(s, lim, hs), lim, key, to)
    ensures SameLevel(View(End(s, lim, hs)), IdealEnd(ideal, lim, Wholes(s, lim, hs, key)), lim, key, to)
    decreases hs
  {
    if hs == [] {
      WaitingKeepsSound(s, lim, from, to);
    } else {
      var h, next := hs[0], Next(s, lim, hs[0]);
      StepStaysAlike(s, ideal, lim, h, key, from);
      if CompletesFor(s, h, key) {
        SplitCallsAreIdeal(next, IdealAllow(ideal, lim, key, h.at).0, lim, hs[1..], key, h.at, to);
        assert Wholes(s, lim, hs, key)[1..] == Wholes(next, lim, hs[1..], key);
      } else {
        SplitCallsAreIdeal(next, ideal, lim, hs[1..], key, h.at, to);
        assert Wholes(s, lim, hs, key) == Wholes(next, lim, hs[1..], key);
        assert Replies(s, lim, hs, key) == Replies(next, lim, hs[1..], key);
      }
    }
  }

  /** The first call of a key to complete on a bucket that is no longer its key's still
      answers as it should exactly when the key has a token at that moment (or the limit
      never grants at all), whatever became of other keys' calls. */
  lemma FirstBrokenCall(s: Split, ideal: Buckets, lim: Limits, hs: seq<Half>, p: Pid, key: string, from: real, t: real)
    requires Sensible(lim) && Inv(s, lim, key, from) && SameLevel(View(s), ideal, lim, key, from)
    requires Timely(hs, from, t) && Happens(s, lim, hs) && Unbroken(s, lim, hs, key)
    requires var end := End(s, lim, hs);
             && p in end.pending && end.pending[p].key == key
             && end.pending[p].bucket in end.heap && end.pending[p].bucket != end.shared
    ensures var end := End(s, lim, hs);
            && (forall k :: k in end.visitors ==> end.visitors[k] in end.heap)
            && (Reply(end, lim, p, t) == IdealAllow(IdealEnd(ideal, lim, Wholes(s, lim, hs, key)), lim, key, t).1 <==>
                  Attached(end, p) || lim.burst == 0 || LevelOf(View(end), lim, key, t) >= 1.0)
  {
    SplitCallsAreIdeal(s, ideal, lim, hs, key, from, t);
    SplitAnswersIff(End(s, lim, hs), IdealEnd(ideal, lim, Wholes(s, lim, hs, key)), lim, p, t);
  }

  /** NewRateLimiter. */
  function Fresh(lim: Limits, shared: Ref, now: real): Split {
    Split(map[shared := Full(lim, now)], map[], shared, map[])
  }

  lemma FreshIsIdeal(lim: Limits, shared: Ref, key: string, now: real)
    requires Sensible(lim)
    ensures Inv(Fresh(lim, shared, now), lim, key, now)
    ensures SameLevel(View(Fresh(lim, shared, now)), map[], lim, key, now)
  {
  }
}
