/** Every interleaving of the rename protocol is equivalent to its commits in
    commit order, so what the atomic tables guarantee holds in every reachable state. */
module RenameSafety {
  import opened Prelude
  import opened Usernames
  import opened UsernameHistory
  import opened RenameProtocol

  // ---- One step --------------------------------------------------------------------

  lemma StatementKeepsSound(s: State, t: Tid)
    requires Ready(s, t)
    ensures StaysSound(s, t)
  {
    var x := s.txns[t];
    if x.job.RegisterJob? {
      RegisterAdvances(s, t);
    } else if x.job.RenameJob? {
      match x.pc
      case Start => RenameStarts(s, t);
      case Locking(_) => RenameLocks(s, t);
      case Checking => RenameChecks(s, t);
      case Reclaiming => RenameReclaims(s, t);
      case Retiring => RenameRetires(s, t);
      case Trimming => RenameTrims(s, t);
      case Updating => RenameUpdates(s, t);
    } else {
      OthersAdvance(s, t);
    }
  }

  lemma SoundLater(db: Tables, clock: int, later: int, x: Txn)
    requires clock <= later && Sound(db, clock, x)
    ensures Sound(db, later, x)
  {
  }

  /** What a statement locks, nobody it had to wait for holds. */
  lemma StatementStaysApart(key: Slug -> int, s: State, t: Tid, u: Tid)
    requires t in s.txns && u in s.txns && t != u && !s.txns[t].pc.Committing?
    requires Apart(key, s.txns[t], s.txns[u]) && !Waits(key, s, t, u)
    ensures t in After(s, t).txns ==> Apart(key, After(s, t).txns[t], s.txns[u])
    ensures t in After(s, t).txns ==> After(s, t).txns[t].job == s.txns[t].job
    ensures After(s, t).txns - {t} == s.txns - {t}
  {
    var x, y := s.txns[t], s.txns[u];
    if x.pc.Locking? && x.pc.todo != [] {
      assert forall h :: h in y.held ==> key(h) != key(x.pc.todo[0]);
    }
  }

  lemma StatementKeepsOthers(s: State, t: Tid)
    requires t in s.txns && !s.txns[t].pc.Committing?
    ensures After(s, t).txns - {t} == s.txns - {t} && After(s, t).log == s.log
    ensures s.clock <= After(s, t).clock && After(s, t).db == s.db
  {
  }

  lemma AdvanceKeepsInv(key: Slug -> int, s: State, t: Tid)
    requires Inv(key, s) && t in s.txns && !s.txns[t].pc.Committing? && !Blocked(key, s, t)
    ensures Inv(key, After(s, t))
  {
    var s' := After(s, t);
    StatementKeepsSound(s, t);
    StatementKeepsOthers(s, t);
    forall u | u in s'.txns && u != t ensures u in s.txns && s'.txns[u] == s.txns[u] {
      assert u in s'.txns - {t} && (s'.txns - {t})[u] == s'.txns[u];
    }
    forall u | u in s'.txns ensures Sound(s'.db, s'.clock, s'.txns[u]) {
      if u != t { SoundLater(s.db, s.clock, s'.clock, s.txns[u]); }
    }
    forall u | u in s'.txns && u != t && t in s'.txns
      ensures Apart(key, s'.txns[t], s'.txns[u]) && Apart(key, s'.txns[u], s'.txns[t])
    {
      assert !Waits(key, s, t, u);
      StatementStaysApart(key, s, t, u);
    }
  }

  lemma CommitSparesOthers(key: Slug -> int, db: Tables, clock: int, x: Txn, y: Txn)
    requires WellKept(db) && Sound(db, clock, x) && x.pc.Committing? && Sound(db, clock, y) && Apart(key, x, y)
    requires Allowed(db, OpOf(x))
    ensures Sound(Apply(db, OpOf(x)), clock, y)
  {
    var names := Names(db, OpOf(x));
    if x.job.RegisterJob? {
      assert Candidates(x.job)[x.attempt] in Candidates(x.job)[..x.attempt + 1];
    }
    assert names <= x.held;
    assert forall h :: h in x.held && h in y.held ==> key(h) != key(h);
    if !x.job.RegisterJob? { assert x.job.mentor in x.rows; }
    Undisturbed(db, clock, y, OpOf(x));
  }

  lemma CommitKeepsTables(db: Tables, clock: int, x: Txn)
    requires WellKept(db) && Dated(db, clock) && Sound(db, clock, x) && x.pc.Committing?
    requires Allowed(db, OpOf(x))
    ensures WellKept(Apply(db, OpOf(x))) && Dated(Apply(db, OpOf(x)), clock)
  {
    var op := OpOf(x);
    if op.Rename? {
      RenameKeepsWellKept(db, op.mentor, op.newSlug, op.actor, op.now, op.began, op.stamp);
    }
  }

  lemma CommitKeepsInv(key: Slug -> int, s: State, t: Tid)
    requires Inv(key, s) && t in s.txns && s.txns[t].pc.Committing?
    ensures Inv(key, After(s, t))
    ensures Allowed(s.db, OpOf(s.txns[t])) && After(s, t).db == Apply(s.db, OpOf(s.txns[t]))
  {
    var x := s.txns[t];
    var s' := After(s, t);
    CommitIsAtomic(s.db, s.clock, x);
    CommitKeepsTables(s.db, s.clock, x);
    assert s' == State(Apply(s.db, OpOf(x)), s.txns - {t}, s.clock, s.log + [OpOf(x)]);
    forall u | u in s'.txns ensures Sound(s'.db, s'.clock, s'.txns[u]) {
      CommitSparesOthers(key, s.db, s.clock, x, s.txns[u]);
    }
  }

  lemma TickKeepsInv(key: Slug -> int, s: State, d: nat)
    requires Inv(key, s)
    ensures Inv(key, s.(clock := s.clock + d))
  {
    forall t | t in s.txns ensures Sound(s.db, s.clock + d, s.txns[t]) {
      SoundLater(s.db, s.clock, s.clock + d, s.txns[t]);
    }
  }

  lemma BeginKeepsInv(key: Slug -> int, s: State, t: Tid, job: Job, s': State)
    requires Inv(key, s) && Next(key, s, Begin(t, job), s')
    ensures Inv(key, s')
  {
    assert s'.txns - {t} == s.txns;
    assert Sound(s.db, s.clock, s'.txns[t]);
  }

  /** A step leaves the committed tables alone or makes one allowed operation. */
  ghost predicate OneOpAtMost(s: State, s': State) {
    (s'.log == s.log && s'.db == s.db) ||
    exists op :: s'.log == s.log + [op] && Allowed(s.db, op) && s'.db == Apply(s.db, op)
  }

  lemma AdvanceIsOneOp(key: Slug -> int, s: State, t: Tid)
    requires Inv(key, s) && t in s.txns && !Blocked(key, s, t)
    ensures Inv(key, After(s, t)) && OneOpAtMost(s, After(s, t))
  {
    if s.txns[t].pc.Committing? {
      CommitKeepsInv(key, s, t);
      CommitLogs(s, t);
    } else {
      AdvanceKeepsInv(key, s, t);
      StatementKeepsOthers(s, t);
    }
  }

  lemma CommitLogs(s: State, t: Tid)
    requires t in s.txns && s.txns[t].pc.Committing?
    ensures After(s, t).log == s.log + [OpOf(s.txns[t])]
  {
  }

  lemma NextKeepsInv(key: Slug -> int, s: State, e: Event, s': State)
    requires Inv(key, s) && Next(key, s, e, s')
    ensures Inv(key, s') && OneOpAtMost(s, s')
  {
    match e
    case Begin(t, job) => BeginKeepsInv(key, s, t, job, s');
    case Tick(d) => TickKeepsInv(key, s, d);
    case Abort(t) =>
    case Advance(t) => AdvanceIsOneOp(key, s, t);
  }

  // ---- Whole runs --------------------------------------------------------------------

  lemma LegalSnoc(db: Tables, ops: seq<Op>, op: Op)
    requires Legal(db, ops) && Allowed(Replay(db, ops), op)
    ensures Legal(db, ops + [op]) && Replay(db, ops + [op]) == Apply(Replay(db, ops), op)
  {
    assert (ops + [op])[..|ops + [op]| - 1] == ops;
  }

  /** Serializability: in every reachable state the committed tables are what the
      committed operations, one after another in commit order, make of the first. */
  lemma {:induction false} RunsAreSerial(key: Slug -> int, states: seq<State>, events: seq<Event>)
    requires Run(key, states, events)
    ensures var last := states[|events|];
            Inv(key, last) && Legal(states[0].db, last.log) && last.db == Replay(states[0].db, last.log)
  {
    if events != [] {
      var k := |events| - 1;
      RunsAreSerial(key, states[..k + 1], events[..k]);
      NextKeepsInv(key, states[k], events[k], states[k + 1]);
      if states[k + 1].log != states[k].log {
        var op :| states[k + 1].log == states[k].log + [op] && Allowed(states[k].db, op)
                  && states[k + 1].db == Apply(states[k].db, op);
        LegalSnoc(states[0].db, states[k].log, op);
      }
    }
  }

  /** No name is ever live for two mentors, or both live and a redirect. */
  lemma EveryNameHasOneOwner(key: Slug -> int, states: seq<State>, events: seq<Event>, slug: Slug, m: Id, n: Id)
    requires Run(key, states, events)
    requires Owns(states[|events|].db, m, slug) && Owns(states[|events|].db, n, slug)
    ensures m == n && m in states[|events|].db.mentors
    ensures slug in states[|events|].db.history <==> states[|events|].db.mentors[m].slug != slug
  {
    RunsAreSerial(key, states, events);
    OneOwnerOneHop(states[|events|].db, slug, m, n);
  }

  /** However the statements interleave, the redirects of a mentor are the two names
      they retired last, and self-renames are fourteen days apart. */
  lemma InterleavedHistory(key: Slug -> int, states: seq<State>, events: seq<Event>, m: Id, start: seq<Slug>)
    requires Run(key, states, events) && Tracks(states[0].db, m, start)
    ensures var log := states[|events|].log;
            && Legal(states[0].db, log)
            && Tracks(states[|events|].db, m, Retired(states[0].db, log, m, start))
            && forall i, j :: 0 <= i < j < |log| && SelfRename(log[i], m) && SelfRename(log[j], m)
                 ==> log[j].began >= log[i].began + COOLDOWN
  {
    var db, log := states[0].db, states[|events|].log;
    RunsAreSerial(key, states, events);
    RedirectsAreTheTwoNewest(db, log, m, start);
    forall i, j | 0 <= i < j < |log| && SelfRename(log[i], m) && SelfRename(log[j], m)
      ensures log[j].began >= log[i].began + COOLDOWN
    {
      SelfRenamesAreFourteenDaysApart(db, log, m, i, j);
    }
  }

  // ---- Branches that never run -----------------------------------------------------------

  /** A refusal, too, is the atomic answer: the tables and the locked row as they are
      when the check runs. */
  lemma RefusalIsAtomic(key: Slug -> int, s: State, t: Tid)
    requires Inv(key, s) && t in s.txns && s.txns[t].job.RenameJob? && s.txns[t].pc.Checking?
    ensures var j := s.txns[t].job;
            t in After(s, t).txns <==> Judge(s.db, j.mentor, j.newSlug, CooldownOf(j.actor), j.now) == Granted
  {
    assert View(s.db, s.txns[t].delta) == s.db;
  }

  /** The slug-history conflict and the unique violations on mentors.slug are dead
      branches for renames and API registrations: past its check, a transaction is
      never turned away. */
  lemma BackstopsNeverFire(key: Slug -> int, s: State, t: Tid)
    requires Inv(key, s) && t in s.txns
    requires s.txns[t].pc in {Reclaiming, Retiring, Trimming, Updating}
    requires s.txns[t].job.RenameJob? || (s.txns[t].job.RegisterJob? && s.txns[t].job.checksLive)
    ensures t in After(s, t).txns
  {
    var x := s.txns[t];
    if x.job.RegisterJob? {
      assert View(s.db, x.delta) == s.db;
    } else {
      match x.pc
      case Reclaiming => RenameReclaims(s, t);
      case Retiring => RenameRetires(s, t);
      case Trimming => RenameTrims(s, t);
      case Updating => RenameUpdates(s, t);
    }
  }

  /** In every interleaved run the waiting time is the one since the last self-rename that
      committed. */
  lemma InterleavedCooldown(key: Slug -> int, states: seq<State>, events: seq<Event>, m: Id, newSlug: Slug, now: int)
    requires Run(key, states, events) && AsksToRename(states[|events|].db, m, newSlug)
    ensures var last := LastSelfRename(StoredChange(states[0].db, m), states[|events|].log, m);
            var answer := Judge(states[|events|].db, m, newSlug, CooldownOf(ByMentor), now);
            && (answer.Cooling? <==> last.Some? && now - last.value < 14 * 24 * 60 * 60)
            && (answer.Cooling? ==> answer.next == last.value + 14 * 24 * 60 * 60)
  {
    RunsAreSerial(key, states, events);
    CooldownIsSinceLastSelfRename(states[0].db, states[|events|].log, m, newSlug, now);
  }

  /** A purge erases only what was deleted before its cutoff, judged on the row it holds
      until it commits: a restore, or a second deletion after one, cannot come in between. */
  lemma PurgeSparesTheRecent(key: Slug -> int, s: State, t: Tid)
    requires Inv(key, s) && t in s.txns && s.txns[t].job.PurgeJob?
    ensures var m, cutoff := s.txns[t].job.mentor, s.txns[t].job.cutoff;
            var overdue := m in s.db.mentors && s.db.mentors[m].deletedAt.Some?
                           && s.db.mentors[m].deletedAt.value < cutoff;
            && (s.txns[t].pc.Start? ==> (t in After(s, t).txns <==> overdue))
            && (!s.txns[t].pc.Start? ==> overdue)
            && (s.txns[t].pc.Committing? ==> m !in After(s, t).db.mentors)
  {
    assert Sound(s.db, s.clock, s.txns[t]);
  }
}
