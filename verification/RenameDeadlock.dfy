/** When the locking protocol can deadlock: never if slugs that share an advisory
    lock are neighbours in string order, and always reachably otherwise. */
module RenameDeadlock {
  import opened Prelude
  import opened Usernames
  import opened RenameProtocol
  import opened RenameSafety

  ghost predicate WaitsWithin(key: Slug -> int, s: State, group: set<Tid>, t: Tid) {
    exists u :: u in group && Waits(key, s, t, u)
  }

  /** A set of transactions each of which waits for another of them. */
  ghost predicate Stuck(key: Slug -> int, s: State, group: set<Tid>) {
    group != {} && forall t {:trigger WaitsWithin(key, s, group, t)} :: t in group ==> WaitsWithin(key, s, group, t)
  }

  ghost predicate DeadlockFree(key: Slug -> int) {
    forall states, events, group :: Run(key, states, events) ==> !Stuck(key, states[|events|], group)
  }

  /** The slugs sharing a lock form an unbroken stretch of the string order. */
  ghost predicate Convex(key: Slug -> int) {
    forall a, b, c :: a != "" && Below(a, b) && Below(b, c) && key(a) == key(c) ==> key(b) == key(a)
  }

  // ---- The generated names are tried in ascending order --------------------------------

  lemma CandidatesAscend(job: Job, i: nat, j: nat)
    requires job.RegisterJob? && i < j < |Candidates(job)|
    ensures Below(Candidates(job)[i], Candidates(job)[j])
  {
    var base := job.base;
    var tails := ["", "-2", "-3", "-4", "-5", "-6"];
    assert forall k :: 0 <= k < |Candidates(job)| ==> Candidates(job)[k] == base + tails[k];
    assert Below(tails[i], tails[j]) by {
      if i > 0 { assert tails[i][1..] == [tails[i][1]] && tails[j][1..] == [tails[j][1]]; }
    }
    BelowAfterPrefix(base, tails[i], tails[j]);
  }

  /** A transaction asks for its next slug lock above all those it holds. */
  lemma LocksAscend(db: Tables, clock: int, x: Txn, h: Slug)
    requires WellKept(db) && Sound(db, clock, x) && x.pc.Locking? && h in x.held
    ensures x.pc.todo != [] && h != "" && Below(h, x.pc.todo[0])
  {
    if x.job.RegisterJob? {
      var names := Candidates(x.job);
      var i :| 0 <= i < x.attempt && names[i] == h;
      CandidatesAscend(x.job, i, x.attempt);
    } else {
      BelowTotal(x.row.slug, x.job.newSlug);
    }
  }

  // ---- Who can wait, and for whom --------------------------------------------------------

  lemma RenamePendingIsOwn(db: Tables, clock: int, y: Txn, slug: Slug)
    requires WellKept(db) && Sound(db, clock, y) && RedirectPending(y.delta, slug) && y.job.RenameJob?
    ensures y.job.mentor in y.rows
    ensures (slug in y.held && slug !in db.history) || slug in Own(db.history, y.job.mentor)
  {
    if !y.pc.Start? && !y.pc.Locking? && !y.pc.Checking? {
      var retired := RetiredHistory(db, y);
      assert forall h :: h in Own(retired, y.job.mentor) ==> h == y.row.slug || h in Own(db.history, y.job.mentor);
    }
  }

  /** The redirects and index entries a sound transaction has uncommitted: names it
      holds the lock of, or redirects of the mentor whose row it has locked. */
  lemma PendingIsOwn(db: Tables, clock: int, y: Txn, slug: Slug)
    requires WellKept(db) && Sound(db, clock, y) && RedirectPending(y.delta, slug)
    ensures y.job.mentor in y.rows
    ensures (slug in y.held && slug !in db.history) || slug in Own(db.history, y.job.mentor)
  {
    if y.job.RenameJob? { RenamePendingIsOwn(db, clock, y, slug); }
  }

  lemma NamePendingIsHeld(db: Tables, clock: int, y: Txn, slug: Slug)
    requires WellKept(db) && Sound(db, clock, y) && NamePending(db, y.delta, slug)
    ensures slug in y.held || (y.job.PurgeJob? && y.pc.Committing? && IsCurrent(db, slug))
  {
    if y.job.RegisterJob? {
      assert Candidates(y.job)[y.attempt] in Candidates(y.job)[..y.attempt + 1];
    }
  }

  /** Nobody else has an uncommitted change of a redirect or name a transaction owns. */
  lemma NotPending(key: Slug -> int, db: Tables, clock: int, x: Txn, y: Txn, slug: Slug)
    requires WellKept(db) && Sound(db, clock, y) && Apart(key, x, y)
    requires x.job.mentor in x.rows && (slug in x.held || slug in Own(db.history, x.job.mentor))
    requires slug in db.history ==> slug in Own(db.history, x.job.mentor)
    ensures !RedirectPending(y.delta, slug)
    ensures slug in x.held && !IsCurrent(db, slug) ==> !NamePending(db, y.delta, slug)
  {
    if RedirectPending(y.delta, slug) { PendingIsOwn(db, clock, y, slug); }
    if NamePending(db, y.delta, slug) { NamePendingIsHeld(db, clock, y, slug); }
    assert forall h :: h in x.held && h in y.held ==> key(h) != key(h);
  }

  lemma RenameNeverWaits(key: Slug -> int, s: State, t: Tid, u: Tid)
    requires Inv(key, s) && t in s.txns && s.txns[t].job.RenameJob? && !s.txns[t].pc.Start? && !s.txns[t].pc.Locking?
    ensures !Waits(key, s, t, u)
  {
    if u in s.txns && u != t && !s.txns[t].pc.Checking? && !s.txns[t].pc.Committing? {
      var x, y := s.txns[t], s.txns[u];
      assert Sound(s.db, s.clock, x) && Apart(key, x, y);
      if x.pc.Trimming? {
        ViewWhileTrimming(s.db, s.clock, x);
        RetiredOwn(s.db, x);
        forall h | h in Own(RetiredHistory(s.db, x), x.job.mentor) ensures !RedirectPending(y.delta, h) {
          NotPending(key, s.db, s.clock, x, y, h);
        }
      } else if x.pc.Retiring? {
        NotPending(key, s.db, s.clock, x, y, x.row.slug);
      } else {
        NotPending(key, s.db, s.clock, x, y, x.job.newSlug);
      }
    }
  }

  lemma PurgedRowsNotPending(key: Slug -> int, s: State, t: Tid, u: Tid)
    requires Inv(key, s) && t in s.txns && u in s.txns && t != u
    requires s.txns[t].job.PurgeJob? && s.txns[t].pc.Updating?
    ensures forall h :: h in Own(s.db.history, s.txns[t].job.mentor) ==> !RedirectPending(s.txns[u].delta, h)
  {
    var x, y := s.txns[t], s.txns[u];
    assert Sound(s.db, s.clock, x) && Sound(s.db, s.clock, y) && Apart(key, x, y);
    forall h | h in Own(s.db.history, x.job.mentor) ensures !RedirectPending(y.delta, h) {
      NotPending(key, s.db, s.clock, x, y, h);
    }
  }

  lemma PurgeNeverWaits(key: Slug -> int, s: State, t: Tid, u: Tid)
    requires Inv(key, s) && t in s.txns && s.txns[t].job.PurgeJob? && !s.txns[t].pc.Start?
    ensures !Waits(key, s, t, u)
  {
    if u in s.txns && u != t && s.txns[t].pc.Updating? {
      assert Sound(s.db, s.clock, s.txns[t]);
      assert View(s.db, s.txns[t].delta) == s.db;
      PurgedRowsNotPending(key, s, t, u);
    }
  }

  lemma DeletionNeverWaits(key: Slug -> int, s: State, t: Tid, u: Tid)
    requires Inv(key, s) && t in s.txns && !s.txns[t].pc.Start?
    requires s.txns[t].job.SoftDeleteJob? || s.txns[t].job.RestoreJob?
    ensures !Waits(key, s, t, u)
  {
    assert Sound(s.db, s.clock, s.txns[t]);
  }

  lemma InsertHoldsItsName(db: Tables, x: Txn)
    requires x.job.RegisterJob? && RegisterSound(db, x) && x.pc.Updating?
    ensures Candidates(x.job)[x.attempt] in x.held
  {
    assert Candidates(x.job)[x.attempt] in Candidates(x.job)[..x.attempt + 1];
  }

  lemma RegisterWaitsOnName(key: Slug -> int, s: State, t: Tid, u: Tid)
    requires Waits(key, s, t, u) && s.txns[t].job.RegisterJob? && RegisterSound(s.db, s.txns[t])
    requires !s.txns[t].pc.Start? && !s.txns[t].pc.Locking?
    ensures s.txns[t].pc.Updating?
    ensures NamePending(s.db, s.txns[u].delta, Candidates(s.txns[t].job)[s.txns[t].attempt])
  {
  }

  lemma HeldByOne(key: Slug -> int, x: Txn, y: Txn, name: Slug)
    requires Apart(key, x, y) && name in x.held
    ensures name !in y.held
  {
    assert key(name) == key(name);
  }

  lemma RegisterWaitsForPurge(key: Slug -> int, s: State, t: Tid, u: Tid)
    requires Inv(key, s) && Waits(key, s, t, u) && s.txns[t].job.RegisterJob?
    requires !s.txns[t].pc.Start? && !s.txns[t].pc.Locking?
    ensures s.txns[t].pc.Updating? && s.txns[u].job.PurgeJob? && s.txns[u].pc.Committing?
  {
    var x := s.txns[t];
    assert Sound(s.db, s.clock, x);
    RegisterWaitsOnName(key, s, t, u);
    InsertHoldsItsName(s.db, x);
    HeldByOne(key, x, s.txns[u], Candidates(x.job)[x.attempt]);
    NamePendingIsHeld(s.db, s.clock, s.txns[u], Candidates(x.job)[x.attempt]);
  }

  /** Past its slug locks a rename never waits; a deletion, restore or purge waits
      only for its row; a registration's INSERT only for a purge about to commit. */
  lemma WaitsAreForLocks(key: Slug -> int, s: State, t: Tid, u: Tid)
    requires Inv(key, s) && Waits(key, s, t, u)
    ensures var x, y := s.txns[t], s.txns[u];
            || (x.pc.Start? && y.rows != {})
            || (x.pc.Locking? && y.held != {})
            || (x.job.RegisterJob? && x.pc.Updating? && y.job.PurgeJob? && y.pc.Committing?)
  {
    var x, y := s.txns[t], s.txns[u];
    if !x.pc.Start? && !x.pc.Locking? {
      if x.job.RenameJob? {
        RenameNeverWaits(key, s, t, u);
      } else if x.job.PurgeJob? {
        PurgeNeverWaits(key, s, t, u);
      } else if !x.job.RegisterJob? {
        DeletionNeverWaits(key, s, t, u);
      } else {
        RegisterWaitsForPurge(key, s, t, u);
      }
    }
  }

  // ---- No circular wait ---------------------------------------------------------------------

  /** Whoever is waited for, and waits for somebody who waits, waits for a slug lock. */
  lemma BlockerLocks(key: Slug -> int, s: State, t: Tid, u: Tid, v: Tid, w: Tid)
    requires Inv(key, s) && Waits(key, s, t, u) && Waits(key, s, u, v) && Waits(key, s, v, w)
    ensures s.txns[u].pc.Locking? && s.txns[u].pc.todo != []
  {
    WaitsAreForLocks(key, s, t, u);
    WaitsAreForLocks(key, s, u, v);
    WaitsAreForLocks(key, s, v, w);
    assert Sound(s.db, s.clock, s.txns[u]);
  }

  /** Along a chain of waits for slug locks the wanted names ascend. */
  lemma RequestsAscend(key: Slug -> int, s: State, t: Tid, u: Tid, v: Tid)
    requires Inv(key, s) && Convex(key) && Waits(key, s, t, u) && Waits(key, s, u, v)
    requires s.txns[t].pc.Locking? && s.txns[u].pc.Locking?
    ensures s.txns[t].pc.todo != [] && s.txns[u].pc.todo != []
    ensures Below(s.txns[t].pc.todo[0], s.txns[u].pc.todo[0])
  {
    var y, z := s.txns[u], s.txns[v];
    var wanted, next := s.txns[t].pc.todo[0], y.pc.todo[0];
    var h :| h in y.held && key(h) == key(wanted);
    var g :| g in z.held && key(g) == key(next);
    assert Apart(key, y, z) && Sound(s.db, s.clock, y);
    LocksAscend(s.db, s.clock, y, h);
    assert Below(next, wanted) ==> key(next) == key(h);
    BelowTotal(wanted, next);
  }

  lemma {:induction false} Highest(wanted: map<Tid, Slug>) returns (t: Tid)
    requires wanted != map[]
    ensures t in wanted && forall u :: u in wanted ==> !Below(wanted[t], wanted[u])
  {
    t :| t in wanted;
    var rest := wanted - {t};
    assert forall u :: u in wanted && u != t ==> u in rest && rest[u] == wanted[u];
    assert !Below(wanted[t], wanted[t]) by { if Below(wanted[t], wanted[t]) { BelowAsymmetric(wanted[t], wanted[t]); } }
    if rest != map[] {
      var v := Highest(rest);
      var a, b := wanted[t], wanted[v];
      if Below(a, b) {
        BelowAsymmetric(a, b);
        t := v;
      } else {
        BelowTotal(a, b);
        forall u | u in rest ensures !Below(a, wanted[u]) {
          if Below(a, wanted[u]) && a != b { BelowTransitive(b, a, wanted[u]); }
        }
      }
    }
  }

  /** A finite group cannot wait in a circle along ascending names. */
  lemma NoCircle(blocker: map<Tid, Tid>, wanted: map<Tid, Slug>)
    requires blocker != map[]
    requires forall t :: t in blocker ==> blocker[t] in blocker && blocker[t] in wanted
    ensures exists t :: t in blocker && t in wanted && !Below(wanted[t], wanted[blocker[t]])
  {
    var inside := map t | t in wanted && t in blocker :: wanted[t];
    var some :| some in blocker;
    assert blocker[some] in inside;
    var t := Highest(inside);
    assert blocker[t] in inside;
  }

  ghost function Blocker(key: Slug -> int, s: State, group: set<Tid>, t: Tid): (u: Tid)
    requires Stuck(key, s, group) && t in group
    ensures u in group && Waits(key, s, t, u)
  {
    assert WaitsWithin(key, s, group, t);
    var u :| u in group && Waits(key, s, t, u); u
  }

  function Wanted(s: State): map<Tid, Slug> {
    map t | t in s.txns && s.txns[t].pc.Locking? && s.txns[t].pc.todo != [] :: s.txns[t].pc.todo[0]
  }

  lemma StuckWantsAscend(key: Slug -> int, s: State, group: set<Tid>, t: Tid)
    requires Inv(key, s) && Convex(key) && Stuck(key, s, group) && t in group
    ensures var u := Blocker(key, s, group, t);
            u in Wanted(s) && (t in Wanted(s) ==> Below(Wanted(s)[t], Wanted(s)[u]))
  {
    var u := Blocker(key, s, group, t);
    var v := Blocker(key, s, group, u);
    var w := Blocker(key, s, group, v);
    BlockerLocks(key, s, t, u, v, w);
    if t in Wanted(s) { RequestsAscend(key, s, t, u, v); }
  }

  /** Waits for locks ascend in the names asked for, so where names sharing a lock are
      neighbours no group of transactions is stuck. */
  lemma SomebodyRuns(key: Slug -> int, s: State, group: set<Tid>)
    requires Inv(key, s) && Convex(key)
    ensures !Stuck(key, s, group)
  {
    if Stuck(key, s, group) {
      var blocker := map t | t in group :: Blocker(key, s, group, t);
      forall t | t in blocker
        ensures blocker[t] in blocker && blocker[t] in Wanted(s)
        ensures t in Wanted(s) ==> Below(Wanted(s)[t], Wanted(s)[blocker[t]])
      {
        StuckWantsAscend(key, s, group, t);
      }
      var some :| some in group;
      assert some in blocker;
      NoCircle(blocker, Wanted(s));
    }
  }

  // ---- A deadlock otherwise --------------------------------------------------------------------

  function RenameTxn(m: Id, newSlug: Slug, pc: Pc, row: Mentor, rows: set<Id>, held: set<Slug>): Txn {
    Txn(RenameJob(m, newSlug, ByAdmin, 0, 0), pc, 0, row, 0, rows, held, NOTHING)
  }

  /** An admin rename up to its first slug lock. */
  lemma TakesFirstLock(key: Slug -> int, s: State, t: Tid, m: Id, newSlug: Slug)
    returns (s1: State, s2: State, s3: State)
    requires t !in s.txns && s.clock == 0 && newSlug != "" && m in s.db.mentors
    requires s.db.mentors[m].deletedAt.None? && Below(s.db.mentors[m].slug, newSlug)
    requires forall u :: u in s.txns ==> m !in s.txns[u].rows
    requires forall u, h :: u in s.txns && h in s.txns[u].held ==> key(h) != key(s.db.mentors[m].slug)
    ensures Path(key, [s, s1, s2, s3], [Begin(t, RenameJob(m, newSlug, ByAdmin, 0, 0)), Advance(t), Advance(t)])
    ensures var row := s.db.mentors[m]; s3 == Put(s, t, RenameTxn(m, newSlug, Locking([newSlug]), row, {m}, {row.slug}))
  {
    var row := s.db.mentors[m];
    BelowAsymmetric(row.slug, newSlug);
    s1 := Put(s, t, RenameTxn(m, newSlug, Start, Mentor("", None, None), {}, {}));
    s2 := Put(s, t, RenameTxn(m, newSlug, Locking([row.slug, newSlug]), row, {m}, {}));
    s3 := Put(s, t, RenameTxn(m, newSlug, Locking([newSlug]), row, {m}, {row.slug}));
    assert !Blocked(key, s1, t) && !Blocked(key, s2, t);
    assert Put(s1, t, s2.txns[t]) == s2 && After(s1, t) == s2;
    assert [row.slug, newSlug][1..] == [newSlug];
    assert s2.txns[t].held + {row.slug} == {row.slug};
    assert Put(s2, t, s3.txns[t]) == s3 && After(s2, t) == s3;
    assert Next(key, s, Begin(t, RenameJob(m, newSlug, ByAdmin, 0, 0)), s1);
    assert Next(key, s1, Advance(t), s2) && Next(key, s2, Advance(t), s3);
  }

  lemma CrossedLocks(key: Slug -> int, s: State, b: Slug, c: Slug, a: Slug)
    requires 0 in s.txns && s.txns[0].pc == Locking([b]) && a in s.txns[0].held
    requires 1 in s.txns && s.txns[1].pc == Locking([c]) && b in s.txns[1].held && key(a) == key(c)
    ensures Stuck(key, s, {0, 1})
  {
    assert Waits(key, s, 0, 1) && Waits(key, s, 1, 0);
  }

  lemma PathsJoin(key: Slug -> int, p: seq<State>, ps: seq<Event>, q: seq<State>, qs: seq<Event>)
    requires Path(key, p, ps) && Path(key, q, qs) && p[|ps|] == q[0]
    ensures Path(key, p + q[1..], ps + qs)
  {
    var states, events := p + q[1..], ps + qs;
    forall i | 0 <= i < |events| ensures Next(key, states[i], events[i], states[i + 1]) {
      if i >= |ps| {
        var j := i - |ps|;
        assert states[i] == q[j] && states[i + 1] == q[j + 1];
      }
    }
  }

  /** Mentor 0, called a, asks for b while mentor 1, called b, asks for c; a and c
      share a lock. Each ends up holding the lock the other needs next. */
  lemma CrossingRun(key: Slug -> int, a: Slug, b: Slug, c: Slug) returns (states: seq<State>, events: seq<Event>)
    requires a != "" && Below(a, b) && Below(b, c) && key(a) == key(c) && key(b) != key(a)
    ensures Run(key, states, events) && |events| == 6
    ensures Stuck(key, states[6], {0, 1})
  {
    BelowAsymmetric(a, b);
    BelowAsymmetric(b, c);
    var db := Tables(map[0 := Mentor(a, None, None), 1 := Mentor(b, None, None)], map[], {0, 1});
    var s0 := State(db, map[], 0, []);
    var s1, s2, s3 := TakesFirstLock(key, s0, 0, 0, b);
    var s4, s5, s6 := TakesFirstLock(key, s3, 1, 1, c);
    CrossedLocks(key, s6, b, c, a);
    var first := [Begin(0, RenameJob(0, b, ByAdmin, 0, 0)), Advance(0), Advance(0)];
    var second := [Begin(1, RenameJob(1, c, ByAdmin, 0, 0)), Advance(1), Advance(1)];
    PathsJoin(key, [s0, s1, s2, s3], first, [s3, s4, s5, s6], second);
    states, events := [s0, s1, s2, s3] + [s3, s4, s5, s6][1..], first + second;
    assert states[0] == s0 && states[6] == s6;
  }

  lemma DeadlockIsReachable(key: Slug -> int, a: Slug, b: Slug, c: Slug)
    requires a != "" && Below(a, b) && Below(b, c) && key(a) == key(c) && key(b) != key(a)
    ensures !DeadlockFree(key)
  {
    var states, events := CrossingRun(key, a, b, c);
    assert Stuck(key, states[|events|], {0, 1});
  }

  /** The protocol is free of deadlock exactly when slugs sharing an advisory lock are
      neighbours in string order; a key that is injective on slugs is one example. */
  lemma DeadlockFreeIffConvex(key: Slug -> int)
    ensures DeadlockFree(key) <==> Convex(key)
    ensures (forall a, b :: key(a) == key(b) ==> a == b) ==> DeadlockFree(key)
  {
    if (forall a, b :: key(a) == key(b) ==> a == b) && !Convex(key) {
      var a, b, c :| a != "" && Below(a, b) && Below(b, c) && key(a) == key(c) && key(b) != key(a);
      BelowTransitive(a, b, c);
      BelowAsymmetric(a, c);
    }
    if Convex(key) {
      forall states, events, group | Run(key, states, events) ensures !Stuck(key, states[|events|], group) {
        RunsAreSerial(key, states, events);
        SomebodyRuns(key, states[|events|], group);
      }
    } else {
      var a, b, c :| a != "" && Below(a, b) && Below(b, c) && key(a) == key(c) && key(b) != key(a);
      DeadlockIsReachable(key, a, b, c);
    }
  }
}
