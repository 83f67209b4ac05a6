/** How much a key can be granted when lookups and spends interleave: what the buckets
    allow, and one grant more for every call that completes on an evicted bucket. */
module SplitGrants {
  import opened Prelude
  import opened TokenBuckets
  import opened SplitCalls

  /** What a completing call spends from: its key's bucket, one its key has lost, or the
      shared one (for one key, or None for anybody). */
  datatype Source = OwnBucket(key: string) | LostBucket(key: string) | SharedBucket(whose: Option<string>)

  predicate CompletesOn(s: Split, h: Half, source: Source) {
    && h.SpendFrom? && h.p in s.pending
    && match source
       case OwnBucket(key) => s.pending[h.p].key == key && Attached(s, h.p)
       case LostBucket(key) => s.pending[h.p].key == key && Detached(s, h.p)
       case SharedBucket(whose) =>
         s.pending[h.p].bucket == s.shared && (whose.None? || whose.value == s.pending[h.p].key)
  }

  ghost function Calls(s: Split, lim: Limits, hs: seq<Half>, source: Source): nat
    requires Happens(s, lim, hs)
    decreases hs
  {
    if hs == [] then 0
    else (if CompletesOn(s, hs[0], source) then 1 else 0) + Calls(Next(s, lim, hs[0]), lim, hs[1..], source)
  }

  predicate GrantedOn(s: Split, lim: Limits, h: Half, source: Source)
    requires Shaped(s)
  {
    CompletesOn(s, h, source) && Reply(s, lim, h.p, h.at)
  }

  ghost function Grants(s: Split, lim: Limits, hs: seq<Half>, source: Source): nat
    requires Happens(s, lim, hs)
    decreases hs
  {
    if hs == [] then 0
    else (if GrantedOn(s, lim, hs[0], source) then 1 else 0) + Grants(Next(s, lim, hs[0]), lim, hs[1..], source)
  }

  /** Every grant to a key. */
  ghost function GrantsTo(s: Split, lim: Limits, hs: seq<Half>, key: string): nat
    requires Happens(s, lim, hs)
    decreases hs
  {
    if hs == [] then 0
    else (if CompletesFor(s, hs[0], key) && Reply(s, lim, hs[0].p, hs[0].at) then 1 else 0)
         + GrantsTo(Next(s, lim, hs[0]), lim, hs[1..], key)
  }

  lemma {:induction false} GrantsByBucket(s: Split, lim: Limits, hs: seq<Half>, key: string)
    requires Happens(s, lim, hs)
    ensures GrantsTo(s, lim, hs, key) == Grants(s, lim, hs, OwnBucket(key)) + Grants(s, lim, hs, LostBucket(key))
                                         + Grants(s, lim, hs, SharedBucket(Some(key)))
    ensures Grants(s, lim, hs, LostBucket(key)) <= Calls(s, lim, hs, LostBucket(key))
    ensures Grants(s, lim, hs, SharedBucket(Some(key))) <= Grants(s, lim, hs, SharedBucket(None))
    decreases hs
  {
    if hs != [] { GrantsByBucket(Next(s, lim, hs[0]), lim, hs[1..], key); }
  }

  // ---- A key's own bucket ---------------------------------------------------------------------

  /** A step takes from a key's level exactly what it grants out of its own bucket. */
  lemma OwnStepTakes(s: Split, lim: Limits, h: Half, key: string)
    requires Sensible(lim) && Sound(s, lim, h.at) && Possible(s, h)
    ensures LevelOf(View(Next(s, lim, h)), lim, key, h.at) + (if GrantedOn(s, lim, h, OwnBucket(key)) then 1.0 else 0.0)
         == LevelOf(View(s), lim, key, h.at)
  {
    if CompletesOn(s, h, OwnBucket(key)) {
      SpendingRoutes(s, lim, h.p, h.at);
      SpendLowers(View(s)[key], lim, h.at);
    } else {
      OthersStayAlike(s, lim, h, key, h.at);
    }
  }

  lemma OwnLevelWaits(s: Split, lim: Limits, key: string, t: real, u: real)
    requires Sensible(lim) && Sound(s, lim, t) && t <= u
    ensures LevelOf(View(s), lim, key, u) <= LevelOf(View(s), lim, key, t) + Inflow(lim, t, u)
    ensures 0.0 <= LevelOf(View(s), lim, key, t) <= lim.burst as real
  {
    if key in s.visitors { LevelGrows(View(s)[key], lim, t, u); }
  }

  lemma {:induction false} OwnWithinInflow(s: Split, lim: Limits, hs: seq<Half>, key: string, from: real, to: real)
    requires Sensible(lim) && Sound(s, lim, from) && Timely(hs, from, to) && Happens(s, lim, hs)
    ensures Sound(End(s, lim, hs), lim, to)
    ensures Grants(s, lim, hs, OwnBucket(key)) as real + LevelOf(View(End(s, lim, hs)), lim, key, to)
         <= LevelOf(View(s), lim, key, from) + Inflow(lim, from, to)
    decreases hs
  {
    if hs == [] {
      WaitingKeepsSound(s, lim, from, to);
      OwnLevelWaits(s, lim, key, from, to);
    } else {
      var h, next := hs[0], Next(s, lim, hs[0]);
      NextKeepsSound(s, lim, h, from);
      OwnWithinInflow(next, lim, hs[1..], key, h.at, to);
      OwnLevelWaits(s, lim, key, from, h.at);
      OwnStepTakes(s, lim, h, key);
      Accounts(if GrantedOn(s, lim, h, OwnBucket(key)) then 1 else 0, Grants(next, lim, hs[1..], OwnBucket(key)),
               LevelOf(View(End(s, lim, hs)), lim, key, to), LevelOf(View(next), lim, key, h.at),
               LevelOf(View(s), lim, key, from), lim, from, h.at, to);
    }
  }

  // ---- The shared bucket ----------------------------------------------------------------------

  lemma SharedStepTakes(s: Split, lim: Limits, h: Half)
    requires Sensible(lim) && Sound(s, lim, h.at) && Possible(s, h)
    ensures var next := Next(s, lim, h);
            && next.shared == s.shared && s.shared in next.heap
            && Level(next.heap[s.shared], lim, h.at) + (if GrantedOn(s, lim, h, SharedBucket(None)) then 1.0 else 0.0)
            == Level(s.heap[s.shared], lim, h.at)
  {
    SpendLowers(s.heap[s.shared], lim, h.at);
  }

  lemma {:induction false} SharedWithinInflow(s: Split, lim: Limits, hs: seq<Half>, from: real, to: real)
    requires Sensible(lim) && Sound(s, lim, from) && Timely(hs, from, to) && Happens(s, lim, hs)
    ensures Sound(End(s, lim, hs), lim, to)
    ensures var end := End(s, lim, hs);
            Grants(s, lim, hs, SharedBucket(None)) as real + Level(end.heap[end.shared], lim, to)
            <= Level(s.heap[s.shared], lim, from) + Inflow(lim, from, to)
    decreases hs
  {
    if hs == [] {
      WaitingKeepsSound(s, lim, from, to);
      LevelGrows(s.heap[s.shared], lim, from, to);
    } else {
      var h, next, end := hs[0], Next(s, lim, hs[0]), End(s, lim, hs);
      NextKeepsSound(s, lim, h, from);
      SharedWithinInflow(next, lim, hs[1..], h.at, to);
      LevelGrows(s.heap[s.shared], lim, from, h.at);
      SharedStepTakes(s, lim, h);
      Accounts(if GrantedOn(s, lim, h, SharedBucket(None)) then 1 else 0,
               Grants(next, lim, hs[1..], SharedBucket(None)),
               Level(end.heap[end.shared], lim, to), Level(next.heap[next.shared], lim, h.at),
               Level(s.heap[s.shared], lim, from), lim, from, h.at, to);
    }
  }

  // ---- The bounds -----------------------------------------------------------------------------

  lemma GrantsWithinFlow(s: Split, lim: Limits, hs: seq<Half>, key: string, from: real, to: real)
    requires Sensible(lim) && Sound(s, lim, from) && Timely(hs, from, to) && Happens(s, lim, hs)
    ensures var bound, broken := lim.burst as real + Inflow(lim, from, to), Calls(s, lim, hs, LostBucket(key));
            && Grants(s, lim, hs, OwnBucket(key)) as real <= bound
            && Grants(s, lim, hs, SharedBucket(None)) as real <= bound
            && GrantsTo(s, lim, hs, key) as real <= 2.0 * bound + broken as real
  {
    var end := End(s, lim, hs);
    OwnWithinInflow(s, lim, hs, key, from, to);
    SharedWithinInflow(s, lim, hs, from, to);
    GrantsByBucket(s, lim, hs, key);
    OwnLevelWaits(s, lim, key, from, from);
    OwnLevelWaits(end, lim, key, to, to);
    LevelGrows(s.heap[s.shared], lim, from, from);
    LevelGrows(end.heap[end.shared], lim, to, to);
  }

  /** However lookups, spends and cleanups interleave in a window of length T: the buckets a
      key has grant it at most b + rT, the shared one at most b + rT to everybody together;
      so a key gets at most 2(b + rT) and one grant for every call of its that completes
      on a bucket evicted under it. */
  lemma SplitGrantsAreBounded(s: Split, rate: real, burst: nat, hs: seq<Half>, key: string, from: real, to: real)
    requires var lim := PerSecond(rate, burst);
             rate >= 0.0 && Sound(s, lim, from) && Timely(hs, from, to) && Happens(s, lim, hs)
    ensures var lim, bound := PerSecond(rate, burst), burst as real + rate * (to - from);
            && Grants(s, lim, hs, OwnBucket(key)) as real <= bound
            && Grants(s, lim, hs, SharedBucket(None)) as real <= bound
            && GrantsTo(s, lim, hs, key) as real <= 2.0 * bound + Calls(s, lim, hs, LostBucket(key)) as real
  {
    PerSecondSensible(rate, burst, from, to);
    GrantsWithinFlow(s, PerSecond(rate, burst), hs, key, from, to);
  }

  // ---- No bound in burst and rate alone -----------------------------------------------------

  /** When the cleanups come. */
  ghost predicate Ascending(ticks: nat -> real) {
    forall i: nat, j: nat :: i <= j ==> ticks(i) <= ticks(j)
  }

  function Spending(i: nat, n: nat, u: real): seq<Half>
    decreases n - i
  {
    if i >= n then [] else [SpendFrom(i, u)] + Spending(i + 1, n, u)
  }

  /** n calls, a cleanup after each lookup, then all n spend at once. */
  function Rush(key: string, i: nat, n: nat, ticks: nat -> real): seq<Half>
    decreases n - i
  {
    if i >= n then Spending(0, n, ticks(n))
    else [LookUp(i, key, i + 1, ticks(i)), Clean(ticks(i))] + Rush(key, i + 1, n, ticks)
  }

  /** Calls 0 to found hold a full bucket each, all evicted; those before `spent` are done. */
  ghost predicate Rushed(s: Split, lim: Limits, key: string, found: nat, spent: nat, ticks: nat -> real) {
    && s.visitors == map[] && s.shared == 0 && 0 in s.heap
    && (forall ref :: ref in s.heap ==> ref <= found)
    && (forall p :: p in s.pending <==> spent <= p < found)
    && (forall p :: p in s.pending ==>
          s.pending[p] == Held(key, p + 1) && p + 1 in s.heap && s.heap[p + 1] == Full(lim, ticks(p)))
  }

  lemma FullStaysFull(lim: Limits, t: real, u: real)
    requires Sensible(lim) && t <= u
    ensures Level(Full(lim, t), lim, u) == lim.burst as real
    ensures lim.burst >= 1 ==> Spend(Full(lim, t), lim, u).1
  {
    LevelGrows(Full(lim, t), lim, t, u);
  }

  /** The call's bucket is in the map until the cleanup that follows. */
  function Found(s: Split, lim: Limits, key: string, i: nat, now: real): Split {
    Split(s.heap[i + 1 := Full(lim, now)], map[key := i + 1], 0, s.pending[i := Held(key, i + 1)])
  }

  lemma RushedIsShaped(s: Split, lim: Limits, key: string, i: nat, ticks: nat -> real)
    requires Rushed(s, lim, key, i, 0, ticks)
    ensures Shaped(s) && i !in s.pending && i + 1 !in s.heap
  {
  }

  /** A lookup of a key that has no bucket, in an empty map. */
  lemma EmptyMapFinds(s: Split, lim: Limits, key: string, i: nat, now: real)
    requires Shaped(s) && s.visitors == map[] && s.shared == 0 && i !in s.pending && i + 1 !in s.heap
    ensures Next(s, lim, LookUp(i, key, i + 1, now)) == Found(s, lim, key, i, now)
  {
    assert |s.visitors| == 0;
  }

  lemma RushLooksUp(s: Split, lim: Limits, key: string, i: nat, ticks: nat -> real)
    requires Rushed(s, lim, key, i, 0, ticks)
    ensures var look := LookUp(i, key, i + 1, ticks(i));
            Shaped(s) && Possible(s, look) && Next(s, lim, look) == Found(s, lim, key, i, ticks(i))
  {
    RushedIsShaped(s, lim, key, i, ticks);
    EmptyMapFinds(s, lim, key, i, ticks(i));
  }

  lemma FoundIsShaped(s: Split, lim: Limits, key: string, i: nat, ticks: nat -> real)
    requires Rushed(s, lim, key, i, 0, ticks)
    ensures Shaped(Found(s, lim, key, i, ticks(i)))
  {
  }

  lemma FoundIsEvicted(s: Split, lim: Limits, key: string, i: nat, now: real)
    requires Sensible(lim) && Shaped(Found(s, lim, key, i, now))
    ensures Next(Found(s, lim, key, i, now), lim, Clean(now)) == Found(s, lim, key, i, now).(visitors := map[])
  {
    FullStaysFull(lim, now, now);
    assert Evicted(Found(s, lim, key, i, now), lim, now) == map[];
  }

  lemma RushCleans(s: Split, lim: Limits, key: string, i: nat, ticks: nat -> real)
    requires Sensible(lim) && Rushed(s, lim, key, i, 0, ticks)
    requires Shaped(Found(s, lim, key, i, ticks(i)))
    ensures Rushed(Next(Found(s, lim, key, i, ticks(i)), lim, Clean(ticks(i))), lim, key, i + 1, 0, ticks)
  {
    FoundIsEvicted(s, lim, key, i, ticks(i));
  }

  lemma RushGoesOn(s: Split, lim: Limits, key: string, n: nat, i: nat, ticks: nat -> real)
    requires i < n && Rushed(s, lim, key, n, i, ticks)
    ensures var h := SpendFrom(i, ticks(n));
            Shaped(s) && Possible(s, h) && Rushed(Next(s, lim, h), lim, key, n, i + 1, ticks)
  {
  }

  lemma RushIsGranted(s: Split, lim: Limits, key: string, n: nat, i: nat, ticks: nat -> real)
    requires Sensible(lim) && Ascending(ticks) && lim.burst >= 1 && i < n && Rushed(s, lim, key, n, i, ticks)
    ensures Shaped(s) && GrantedOn(s, lim, SpendFrom(i, ticks(n)), LostBucket(key))
  {
    FullStaysFull(lim, ticks(i), ticks(n));
    assert i in s.pending;
  }

  /** The run grants the key n times, each time on a lost bucket. */
  ghost predicate Yields(s: Split, lim: Limits, hs: seq<Half>, key: string, n: nat) {
    Happens(s, lim, hs) && GrantsTo(s, lim, hs, key) == n == Calls(s, lim, hs, LostBucket(key))
  }

  /** Halves that complete no call add nothing. */
  lemma IdleHalf(s: Split, lim: Limits, h: Half, hs: seq<Half>, key: string, n: nat)
    requires Shaped(s) && Possible(s, h) && !h.SpendFrom? && Yields(Next(s, lim, h), lim, hs, key, n)
    ensures Yields(s, lim, [h] + hs, key, n)
  {
    assert ([h] + hs)[1..] == hs;
  }

  /** A grant on a lost bucket adds one. */
  lemma LostHalf(s: Split, lim: Limits, h: Half, hs: seq<Half>, key: string, n: nat)
    requires Shaped(s) && Possible(s, h) && GrantedOn(s, lim, h, LostBucket(key))
    requires Yields(Next(s, lim, h), lim, hs, key, n)
    ensures Yields(s, lim, [h] + hs, key, n + 1)
  {
    assert ([h] + hs)[1..] == hs;
  }

  lemma NoMoreGrants(s: Split, lim: Limits, key: string, n: nat, u: real)
    ensures Yields(s, lim, Spending(n, n, u), key, 0)
  {
    assert Spending(n, n, u) == [];
  }

  /** Once i of n calls are done, the others are granted. */
  ghost predicate RestGranted(lim: Limits, key: string, n: nat, i: nat, ticks: nat -> real)
    requires i <= n
  {
    forall s :: Rushed(s, lim, key, n, i, ticks) ==> Yields(s, lim, Spending(i, n, ticks(n)), key, n - i)
  }

  lemma GrantedThenRest(s: Split, next: Split, lim: Limits, key: string, n: nat, i: nat, ticks: nat -> real)
    requires i < n && RestGranted(lim, key, n, i + 1, ticks) && Rushed(next, lim, key, n, i + 1, ticks)
    requires var h := SpendFrom(i, ticks(n));
             Shaped(s) && Possible(s, h) && GrantedOn(s, lim, h, LostBucket(key)) && Next(s, lim, h) == next
    ensures Yields(s, lim, Spending(i, n, ticks(n)), key, n - i)
  {
    var rest := Spending(i + 1, n, ticks(n));
    assert Yields(next, lim, rest, key, n - (i + 1));
    LostHalf(s, lim, SpendFrom(i, ticks(n)), rest, key, n - (i + 1));
  }

  lemma OneMoreGrant(s: Split, lim: Limits, key: string, n: nat, i: nat, ticks: nat -> real)
    requires Sensible(lim) && Ascending(ticks) && lim.burst >= 1 && i < n && Rushed(s, lim, key, n, i, ticks)
    requires RestGranted(lim, key, n, i + 1, ticks)
    ensures Yields(s, lim, Spending(i, n, ticks(n)), key, n - i)
  {
    RushGoesOn(s, lim, key, n, i, ticks);
    RushIsGranted(s, lim, key, n, i, ticks);
    GrantedThenRest(s, Next(s, lim, SpendFrom(i, ticks(n))), lim, key, n, i, ticks);
  }

  lemma {:induction false} SpendingGrants(lim: Limits, key: string, n: nat, i: nat, ticks: nat -> real)
    requires Sensible(lim) && Ascending(ticks) && lim.burst >= 1 && i <= n
    ensures RestGranted(lim, key, n, i, ticks)
    decreases n - i
  {
    if i < n { SpendingGrants(lim, key, n, i + 1, ticks); }
    forall s | Rushed(s, lim, key, n, i, ticks)
      ensures Yields(s, lim, Spending(i, n, ticks(n)), key, n - i)
    {
      if i == n { NoMoreGrants(s, lim, key, n, ticks(n)); } else { OneMoreGrant(s, lim, key, n, i, ticks); }
    }
  }

  /** A lookup and the cleanup after it. */
  ghost predicate Round(s: Split, found: Split, next: Split, lim: Limits, look: Half, now: real) {
    && look.LookUp? && Shaped(s) && Possible(s, look) && found == Next(s, lim, look)
    && Shaped(found) && next == Next(found, lim, Clean(now))
  }

  lemma RoundYields(s: Split, found: Split, next: Split, lim: Limits, look: Half, now: real, hs: seq<Half>,
      key: string, n: nat)
    requires Round(s, found, next, lim, look, now) && Yields(next, lim, hs, key, n)
    ensures Yields(s, lim, [look, Clean(now)] + hs, key, n)
  {
    IdleHalf(found, lim, Clean(now), hs, key, n);
    IdleHalf(s, lim, look, [Clean(now)] + hs, key, n);
    assert [look, Clean(now)] + hs == [look] + ([Clean(now)] + hs);
  }

  lemma RushRound(s: Split, lim: Limits, key: string, i: nat, ticks: nat -> real) returns (found: Split, next: Split)
    requires Sensible(lim) && Rushed(s, lim, key, i, 0, ticks)
    ensures Round(s, found, next, lim, LookUp(i, key, i + 1, ticks(i)), ticks(i))
    ensures Rushed(next, lim, key, i + 1, 0, ticks)
  {
    RushLooksUp(s, lim, key, i, ticks);
    FoundIsShaped(s, lim, key, i, ticks);
    RushCleans(s, lim, key, i, ticks);
    found := Found(s, lim, key, i, ticks(i));
    next := Next(found, lim, Clean(ticks(i)));
  }

  lemma {:induction false} RushGrants(s: Split, lim: Limits, key: string, n: nat, i: nat, ticks: nat -> real)
    requires Sensible(lim) && Ascending(ticks) && lim.burst >= 1 && i <= n && Rushed(s, lim, key, i, 0, ticks)
    ensures Yields(s, lim, Rush(key, i, n, ticks), key, n)
    decreases n - i
  {
    if i == n {
      SpendingGrants(lim, key, n, 0, ticks);
    } else {
      var found, next := RushRound(s, lim, key, i, ticks);
      RushGrants(next, lim, key, n, i + 1, ticks);
      RoundYields(s, found, next, lim, LookUp(i, key, i + 1, ticks(i)), ticks(i), Rush(key, i + 1, n, ticks), key, n);
    }
  }

  lemma {:induction false} RushIsTimely(key: string, n: nat, i: nat, ticks: nat -> real)
    requires Ascending(ticks) && i <= n
    ensures Timely(Rush(key, i, n, ticks), ticks(i), ticks(n))
    ensures forall h :: h in Rush(key, i, n, ticks) && h.SpendFrom? ==> h.at == ticks(n)
    decreases n - i
  {
    if i == n {
      SpendingIsTimely(n, 0, ticks(n));
    } else {
      var now, rest := ticks(i), Rush(key, i + 1, n, ticks);
      RushIsTimely(key, n, i + 1, ticks);
      TimelySince(rest, now, ticks(i + 1), ticks(n));
      assert Rush(key, i, n, ticks)[1..] == [Clean(now)] + rest && ([Clean(now)] + rest)[1..] == rest;
    }
  }

  lemma TimelySince(hs: seq<Half>, earlier: real, from: real, to: real)
    requires earlier <= from && Timely(hs, from, to)
    ensures Timely(hs, earlier, to)
  {
  }

  lemma {:induction false} SpendingIsTimely(n: nat, i: nat, u: real)
    requires i <= n
    ensures Timely(Spending(i, n, u), u, u)
    ensures forall h :: h in Spending(i, n, u) ==> h.SpendFrom? && h.at == u
    decreases n - i
  {
    if i < n {
      SpendingIsTimely(n, i + 1, u);
      assert Spending(i, n, u)[1..] == Spending(i + 1, n, u);
    }
  }

  /** Without counting broken calls there is no bound: whatever the rate, with a burst of
      one, and with cleanups at whatever times, a key can be granted any number of times at one
      instant. */
  lemma GrantsAreUnbounded(lim: Limits, key: string, n: nat, ticks: nat -> real)
    requires Sensible(lim) && lim.burst >= 1 && Ascending(ticks)
    ensures var s, hs, u := Fresh(lim, 0, ticks(0)), Rush(key, 0, n, ticks), ticks(n);
            && Sound(s, lim, ticks(0)) && Timely(hs, ticks(0), u) && Happens(s, lim, hs)
            && (forall h :: h in hs && h.SpendFrom? ==> h.at == u)
            && GrantsTo(s, lim, hs, key) == n == Calls(s, lim, hs, LostBucket(key))
  {
    FreshIsIdeal(lim, 0, key, ticks(0));
    RushGrants(Fresh(lim, 0, ticks(0)), lim, key, n, 0, ticks);
    RushIsTimely(key, n, 0, ticks);
  }
}
