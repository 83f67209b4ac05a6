/** Renames, registrations, deletions and purges interleaved statement by statement
    under Read Committed. A transaction keeps its uncommitted rows to itself, reads
    the latest committed rows overlaid with its own, and holds its row lock and its
    per-slug advisory locks until it ends. `key` is hashtext: the advisory lock taken
    for a slug is the lock on key(slug), so two slugs may share one lock. */
module RenameProtocol {
  import opened Prelude
  import opened Usernames

  type Tid = nat

  datatype Job =
    | RenameJob(mentor: Id, newSlug: Slug, actor: Actor, now: int, began: int)
    | RegisterJob(mentor: Id, base: Slug, chosen: bool, checksLive: bool)
    | SoftDeleteJob(mentor: Id, at: int)
    | RestoreJob(mentor: Id)
    | PurgeJob(mentor: Id, cutoff: int)

  /** The statement a transaction runs next. */
  datatype Pc = Start | Locking(todo: seq<Slug>) | Checking | Reclaiming | Retiring | Trimming | Updating | Committing

  /** Uncommitted rows: redirects deleted and inserted, mentor rows stored and erased. */
  datatype Delta = Delta(gone: set<Slug>, put: map<Slug, Redirect>, rows: map<Id, Mentor>, erased: set<Id>)

  datatype Txn = Txn(job: Job, pc: Pc, attempt: nat, row: Mentor, stamp: int,
                     rows: set<Id>, held: set<Slug>, delta: Delta)

  datatype State = State(db: Tables, txns: map<Tid, Txn>, clock: int, log: seq<Op>)

  const NOTHING := Delta({}, map[], map[], {})

  function View(db: Tables, d: Delta): Tables {
    Tables((db.mentors + d.rows) - d.erased, (db.history - d.gone) + d.put, db.issued + d.rows.Keys)
  }

  /** lockSlugs on the two names of a rename. */
  function LockOrder(a: Slug, b: Slug): seq<Slug> {
    if Below(a, b) then [a, b] else [b, a]
  }

  /** The names a registration tries in turn. */
  function Candidates(job: Job): (names: seq<Slug>)
    requires job.RegisterJob?
    ensures names != [] && names[0] == job.base
  {
    if job.chosen then [job.base] else GeneratedNames(job.base)
  }

  // ---- Steps -----------------------------------------------------------------------

  function Put(s: State, t: Tid, x: Txn): State {
    s.(txns := s.txns[t := x])
  }

  /** Rolling back, or ending without having written: locks and rows are dropped. */
  function End(s: State, t: Tid): State {
    s.(txns := s.txns - {t})
  }

  /** Whether the row the first statement asks for exists in the committed table. */
  predicate Matches(db: Tables, job: Job) {
    job.mentor in db.mentors &&
    match job
    case RenameJob(m, _, _, _, _) => db.mentors[m].deletedAt.None?
    case RegisterJob(_, _, _, _) => false
    case SoftDeleteJob(m, _) => db.mentors[m].deletedAt.None?
    case RestoreJob(m) => db.mentors[m].deletedAt.Some?
    case PurgeJob(m, cutoff) => db.mentors[m].deletedAt.Some? && db.mentors[m].deletedAt.value < cutoff
  }

  function AfterStart(s: State, t: Tid, x: Txn): State {
    if x.job.RegisterJob? then Put(s, t, x.(pc := Locking([Candidates(x.job)[0]])))
    else if !Matches(s.db, x.job) then End(s, t)
    else
      var m, row := x.job.mentor, s.db.mentors[x.job.mentor];
      var locked := x.(rows := {m}, row := row);
      match x.job
      case RenameJob(_, newSlug, _, _, _) =>
        if row.slug == newSlug then End(s, t)
        else Put(s, t, locked.(pc := Locking(LockOrder(row.slug, newSlug))))
      case SoftDeleteJob(_, at) =>
        Put(s, t, locked.(pc := Committing, delta := NOTHING.(rows := map[m := row.(deletedAt := Some(at))])))
      case RestoreJob(_) =>
        Put(s, t, locked.(pc := Committing, delta := NOTHING.(rows := map[m := row.(deletedAt := None)])))
      case PurgeJob(_, _) => Put(s, t, locked.(pc := Updating))
      case RegisterJob(_, _, _, _) => s
  }

  /** The cooldown is judged on the row read under the lock, the name on the tables. */
  predicate Refused(view: Tables, x: Txn)
    requires x.job.RenameJob?
  {
    || CoolingUntil(x.row, CooldownOf(x.job.actor), x.job.now).Some?
    || IsCurrent(view, x.job.newSlug)
    || (x.job.newSlug in view.history && view.history[x.job.newSlug].mentor != x.job.mentor)
  }

  function AfterChecking(s: State, t: Tid, x: Txn): State {
    var view := View(s.db, x.delta);
    match x.job
    case RenameJob(_, _, _, _, _) => if Refused(view, x) then End(s, t) else Put(s, t, x.(pc := Reclaiming))
    case RegisterJob(_, _, _, checksLive) =>
      var names := Candidates(x.job);
      if x.attempt >= |names| then End(s, t)
      else if !((checksLive && IsCurrent(view, names[x.attempt])) || names[x.attempt] in view.history) then
        Put(s, t, x.(pc := Updating))
      else if x.attempt + 1 >= |names| then End(s, t)
      else Put(s, t, x.(attempt := x.attempt + 1, pc := Locking([names[x.attempt + 1]])))
    case _ => s
  }

  function Dropping(d: Delta, slugs: set<Slug>): Delta {
    d.(gone := d.gone + slugs, put := d.put - slugs)
  }

  function AfterUpdating(s: State, t: Tid, x: Txn): State {
    var view := View(s.db, x.delta);
    var m := x.job.mentor;
    match x.job
    case RenameJob(_, newSlug, actor, _, began) =>
      if IsCurrent(view, newSlug) || m !in view.mentors then End(s, t)
      else Put(s, t, x.(pc := Committing,
                        delta := x.delta.(rows :=
                          x.delta.rows[m := RenamedRow(view.mentors[m], newSlug, actor, began)])))
    case RegisterJob(_, _, _, _) =>
      if x.attempt >= |Candidates(x.job)| || IsCurrent(view, Candidates(x.job)[x.attempt]) then End(s, t)
      else Put(s, t, x.(pc := Committing,
                        delta := x.delta.(rows := x.delta.rows[m := Mentor(Candidates(x.job)[x.attempt], None, None)])))
    case PurgeJob(_, _) =>
      Put(s, t, x.(pc := Committing, delta := Dropping(x.delta, Own(view.history, m).Keys).(erased := {m})))
    case _ => s
  }

  function OpOf(x: Txn): Op {
    match x.job
    case RenameJob(m, newSlug, actor, now, began) => Rename(m, newSlug, actor, now, began, x.stamp)
    case RegisterJob(m, base, _, _) =>
      Register(m, if x.attempt < |Candidates(x.job)| then Candidates(x.job)[x.attempt] else base)
    case SoftDeleteJob(m, at) => SoftDelete(m, at)
    case RestoreJob(m) => Restore(m)
    case PurgeJob(m, _) => Purge(m)
  }

  /** One statement of transaction t. */
  function After(s: State, t: Tid): State
    requires t in s.txns
  {
    var x := s.txns[t];
    var view := View(s.db, x.delta);
    match x.pc
    case Start => AfterStart(s, t, x)
    case Locking(todo) =>
      if todo == [] then s
      else Put(s, t, x.(held := x.held + {todo[0]}, pc := if |todo| == 1 then Checking else Locking(todo[1..])))
    case Checking => AfterChecking(s, t, x)
    case Reclaiming =>
      if !x.job.RenameJob? then s
      else
        var own := if x.job.newSlug in Own(view.history, x.job.mentor) then {x.job.newSlug} else {};
        Put(s, t, x.(pc := Retiring, delta := Dropping(x.delta, own)))
    case Retiring =>
      if !x.job.RenameJob? then s
      else if x.row.slug in view.history then End(s, t)
      else
        var row := Redirect(x.job.mentor, x.job.actor, s.clock);
        Put(s.(clock := s.clock + 1), t,
            x.(pc := Trimming, stamp := s.clock, delta := x.delta.(put := x.delta.put[x.row.slug := row])))
    case Trimming =>
      Put(s, t, x.(pc := Updating, delta := Dropping(x.delta, Surplus(Own(view.history, x.job.mentor)))))
    case Updating => AfterUpdating(s, t, x)
    case Committing => End(s.(db := view, log := s.log + [OpOf(x)]), t)
  }

  // ---- Waiting ------------------------------------------------------------------------

  /** An uncommitted change of an entry of the unique index on mentors.slug. */
  predicate NamePending(db: Tables, d: Delta, slug: Slug) {
    || (exists m :: m in d.rows && d.rows[m].slug == slug && !(m in db.mentors && db.mentors[m].slug == slug))
    || (exists m :: m in d.rows && m in db.mentors && db.mentors[m].slug == slug && d.rows[m].slug != slug)
    || (exists m :: m in d.erased && m in db.mentors && db.mentors[m].slug == slug)
  }

  predicate RedirectPending(d: Delta, slug: Slug) {
    slug in d.gone || slug in d.put
  }

  /** The next statement of t cannot finish before u ends: a row lock, an advisory
      lock, or an uncommitted entry of a row or unique key the statement writes. */
  ghost predicate Waits(key: Slug -> int, s: State, t: Tid, u: Tid) {
    t in s.txns && u in s.txns && t != u &&
    var x, y := s.txns[t], s.txns[u];
    var view := View(s.db, x.delta);
    match x.pc
    case Start => Matches(s.db, x.job) && x.job.mentor in y.rows
    case Locking(todo) => todo != [] && exists h :: h in y.held && key(h) == key(todo[0])
    case Checking => false
    case Reclaiming => x.job.RenameJob? && RedirectPending(y.delta, x.job.newSlug)
    case Retiring => RedirectPending(y.delta, x.row.slug)
    case Trimming => exists h :: h in Own(view.history, x.job.mentor) && RedirectPending(y.delta, h)
    case Updating =>
      (match x.job
       case RenameJob(_, newSlug, _, _, _) => NamePending(s.db, y.delta, newSlug)
       case RegisterJob(_, _, _, _) =>
         x.attempt < |Candidates(x.job)| && NamePending(s.db, y.delta, Candidates(x.job)[x.attempt])
       case _ => exists h :: h in Own(view.history, x.job.mentor) && RedirectPending(y.delta, h))
    case Committing => false
  }

  ghost predicate Blocked(key: Slug -> int, s: State, t: Tid) {
    exists u :: Waits(key, s, t, u)
  }

  // ---- Runs -----------------------------------------------------------------------------

  datatype Event = Begin(t: Tid, job: Job) | Advance(t: Tid) | Abort(t: Tid) | Tick(d: nat)

  /** A request as the services hand it over: validated names, the service clock read
      before the transaction began, a row id never issued before. */
  ghost predicate Sensible(s: State, job: Job) {
    match job
    case RenameJob(_, newSlug, _, now, began) => newSlug != "" && now <= began == s.clock
    case RegisterJob(m, base, _, _) =>
      && base != "" && m !in s.db.issued
      && forall u :: u in s.txns && s.txns[u].job.RegisterJob? ==> s.txns[u].job.mentor != m
    case _ => true
  }

  ghost predicate Next(key: Slug -> int, s: State, e: Event, s': State) {
    match e
    case Begin(t, job) =>
      t !in s.txns && Sensible(s, job) &&
      s' == Put(s, t, Txn(job, Start, 0, Mentor("", None, None), 0, {}, {}, NOTHING))
    case Advance(t) => t in s.txns && !Blocked(key, s, t) && s' == After(s, t)
    case Abort(t) => t in s.txns && s' == End(s, t)
    case Tick(d) => s' == s.(clock := s.clock + d)
  }

  ghost predicate Initial(s: State) {
    WellKept(s.db) && Dated(s.db, s.clock) && s.txns == map[] && s.log == []
  }

  ghost predicate Dated(db: Tables, clock: int) {
    forall h :: h in db.history ==> db.history[h].at < clock
  }

  ghost predicate Path(key: Slug -> int, states: seq<State>, events: seq<Event>) {
    |states| == |events| + 1 && forall i :: 0 <= i < |events| ==> Next(key, states[i], events[i], states[i + 1])
  }

  ghost predicate Run(key: Slug -> int, states: seq<State>, events: seq<Event>) {
    Path(key, states, events) && Initial(states[0])
  }

  // ---- The invariant ----------------------------------------------------------------------

  ghost predicate Idle(x: Txn) {
    x.rows == {} && x.held == {} && x.delta == NOTHING && x.attempt == 0
  }

  function Reclaimed(db: Tables, newSlug: Slug): set<Slug> {
    if newSlug in db.history then {newSlug} else {}
  }

  function Stamped(x: Txn): Redirect
    requires x.job.RenameJob?
  {
    Redirect(x.job.mentor, x.job.actor, x.stamp)
  }

  function RetiredHistory(db: Tables, x: Txn): map<Slug, Redirect>
    requires x.job.RenameJob?
  {
    (db.history - {x.job.newSlug})[x.row.slug := Stamped(x)]
  }

  /** Exactly what a rename has written when it stands at each statement. */
  ghost predicate RenameWrites(db: Tables, x: Txn)
    requires x.job.RenameJob?
  {
    var m, newSlug, oldSlug := x.job.mentor, x.job.newSlug, x.row.slug;
    var gone, surplus := Reclaimed(db, newSlug), Surplus(Own(RetiredHistory(db, x), m));
    var put := map[oldSlug := Stamped(x)];
    match x.pc
    case Reclaiming => x.delta == NOTHING
    case Retiring => x.delta == NOTHING.(gone := gone)
    case Trimming => x.delta == NOTHING.(gone := gone, put := put)
    case Updating => x.delta == NOTHING.(gone := gone + surplus, put := put - surplus)
    case Committing =>
      x.delta == Delta(gone + surplus, put - surplus,
                       map[m := RenamedRow(x.row, newSlug, x.job.actor, x.job.began)], {})
    case _ => false
  }

  ghost predicate RenameSound(db: Tables, clock: int, x: Txn)
    requires x.job.RenameJob?
  {
    var m, newSlug := x.job.mentor, x.job.newSlug;
    && Matches(db, x.job) && db.mentors[m] == x.row && x.row.slug != newSlug && x.rows == {m}
    && (match x.pc
        case Locking(todo) =>
          x.delta == NOTHING &&
          var order := LockOrder(x.row.slug, newSlug);
          (x.held == {} && todo == order) || (x.held == {order[0]} && todo == [order[1]])
        case Checking => x.delta == NOTHING && x.held == {x.row.slug, newSlug}
        case _ =>
          && x.held == {x.row.slug, newSlug}
          && Judge(db, m, newSlug, CooldownOf(x.job.actor), x.job.now) == Granted
          && RenameWrites(db, x)
          && (x.pc in {Trimming, Updating, Committing} ==>
                x.stamp < clock && forall h :: h in Own(db.history, m) ==> Own(db.history, m)[h].at < x.stamp))
  }

  function Listed(names: seq<Slug>): set<Slug> {
    set h | h in names
  }

  ghost predicate RegisterSound(db: Tables, x: Txn)
    requires x.job.RegisterJob?
  {
    var m, names := x.job.mentor, Candidates(x.job);
    && m !in db.issued && x.job.base != "" && x.rows == {} && x.attempt < |names|
    && match x.pc
       case Start => Idle(x)
       case Locking(todo) =>
         todo == [names[x.attempt]] && x.delta == NOTHING && x.held == Listed(names[..x.attempt])
       case Checking => x.delta == NOTHING && x.held == Listed(names[..x.attempt + 1])
       case Updating =>
         && x.delta == NOTHING && x.held == Listed(names[..x.attempt + 1])
         && names[x.attempt] !in db.history && (x.job.checksLive ==> !IsCurrent(db, names[x.attempt]))
       case Committing =>
         && x.held == Listed(names[..x.attempt + 1])
         && names[x.attempt] !in db.history && !IsCurrent(db, names[x.attempt])
         && x.delta == NOTHING.(rows := map[m := Mentor(names[x.attempt], None, None)])
       case _ => false
  }

  ghost predicate Sound(db: Tables, clock: int, x: Txn) {
    var m := x.job.mentor;
    match x.job
    case RenameJob(_, newSlug, _, now, began) =>
      newSlug != "" && now <= began <= clock && if x.pc.Start? then Idle(x) else RenameSound(db, clock, x)
    case RegisterJob(_, _, _, _) => RegisterSound(db, x)
    case SoftDeleteJob(_, at) =>
      (x.pc.Start? && Idle(x)) ||
      (x.pc.Committing? && Matches(db, x.job) && x.rows == {m} && x.held == {} &&
       x.delta == NOTHING.(rows := map[m := db.mentors[m].(deletedAt := Some(at))]))
    case RestoreJob(_) =>
      (x.pc.Start? && Idle(x)) ||
      (x.pc.Committing? && Matches(db, x.job) && x.rows == {m} && x.held == {} &&
       x.delta == NOTHING.(rows := map[m := db.mentors[m].(deletedAt := None)]))
    case PurgeJob(_, _) =>
      (x.pc.Start? && Idle(x)) ||
      (Matches(db, x.job) && x.rows == {m} && x.held == {} &&
       ((x.pc.Updating? && x.delta == NOTHING) ||
        (x.pc.Committing? && x.delta == Delta(Own(db.history, m).Keys, map[], map[], {m}))))
  }

  /** No two transactions hold the same row lock or the same advisory lock. */
  ghost predicate Apart(key: Slug -> int, x: Txn, y: Txn) {
    && x.rows !! y.rows
    && (forall g, h :: g in x.held && h in y.held ==> key(g) != key(h))
    && (x.job.RegisterJob? && y.job.RegisterJob? ==> x.job.mentor != y.job.mentor)
  }

  ghost predicate Inv(key: Slug -> int, s: State) {
    && WellKept(s.db)
    && Dated(s.db, s.clock)
    && (forall t :: t in s.txns ==> Sound(s.db, s.clock, s.txns[t]))
    && (forall t, u :: t in s.txns && u in s.txns && t != u ==> Apart(key, s.txns[t], s.txns[u]))
  }

  // ---- A transaction's own statements --------------------------------------------------------

  ghost predicate StaysSound(s: State, t: Tid)
    requires t in s.txns
  {
    var s' := After(s, t);
    s'.db == s.db && s'.clock >= s.clock && (t in s'.txns ==> Sound(s'.db, s'.clock, s'.txns[t]))
  }

  ghost predicate Ready(s: State, t: Tid) {
    && t in s.txns && !s.txns[t].pc.Committing?
    && WellKept(s.db) && Dated(s.db, s.clock) && Sound(s.db, s.clock, s.txns[t])
  }

  lemma RenameStarts(s: State, t: Tid)
    requires Ready(s, t) && s.txns[t].job.RenameJob? && s.txns[t].pc.Start?
    ensures StaysSound(s, t)
  {
  }

  lemma RenameLocks(s: State, t: Tid)
    requires Ready(s, t) && s.txns[t].job.RenameJob? && s.txns[t].pc.Locking?
    ensures StaysSound(s, t)
  {
  }

  lemma RenameChecks(s: State, t: Tid)
    requires Ready(s, t) && s.txns[t].job.RenameJob? && s.txns[t].pc.Checking?
    ensures StaysSound(s, t)
  {
    assert View(s.db, s.txns[t].delta) == s.db;
  }

  lemma RenameReclaims(s: State, t: Tid)
    requires Ready(s, t) && s.txns[t].job.RenameJob? && s.txns[t].pc.Reclaiming?
    ensures StaysSound(s, t) && t in After(s, t).txns
  {
    var x := s.txns[t];
    assert View(s.db, x.delta) == s.db;
    var x' := x.(pc := Retiring, delta := Dropping(x.delta, Reclaimed(s.db, x.job.newSlug)));
    assert After(s, t) == Put(s, t, x');
    assert RenameWrites(s.db, x');
    assert RenameSound(s.db, s.clock, x');
  }

  lemma RenameRetires(s: State, t: Tid)
    requires Ready(s, t) && s.txns[t].job.RenameJob? && s.txns[t].pc.Retiring?
    ensures StaysSound(s, t) && t in After(s, t).txns
  {
    var x := s.txns[t];
    assert View(s.db, x.delta).history == s.db.history - {x.job.newSlug};
    var row := Redirect(x.job.mentor, x.job.actor, s.clock);
    var x' := x.(pc := Trimming, stamp := s.clock, delta := x.delta.(put := x.delta.put[x.row.slug := row]));
    assert After(s, t) == Put(s.(clock := s.clock + 1), t, x');
    assert RenameWrites(s.db, x');
    assert RenameSound(s.db, s.clock + 1, x');
  }

  lemma ViewWhileTrimming(db: Tables, clock: int, x: Txn)
    requires x.job.RenameJob? && x.pc.Trimming? && RenameSound(db, clock, x)
    ensures View(db, x.delta).history == RetiredHistory(db, x)
  {
  }

  lemma RenameTrims(s: State, t: Tid)
    requires Ready(s, t) && s.txns[t].job.RenameJob? && s.txns[t].pc.Trimming?
    ensures StaysSound(s, t) && t in After(s, t).txns
  {
    var x := s.txns[t];
    ViewWhileTrimming(s.db, s.clock, x);
    var surplus := Surplus(Own(RetiredHistory(s.db, x), x.job.mentor));
    var x' := x.(pc := Updating, delta := Dropping(x.delta, surplus));
    assert After(s, t) == Put(s, t, x');
    assert RenameWrites(s.db, x');
    assert RenameSound(s.db, s.clock, x');
  }

  lemma RenameUpdates(s: State, t: Tid)
    requires Ready(s, t) && s.txns[t].job.RenameJob? && s.txns[t].pc.Updating?
    ensures StaysSound(s, t) && t in After(s, t).txns
  {
    var x := s.txns[t];
    var m := x.job.mentor;
    assert View(s.db, x.delta).mentors == s.db.mentors;
    var x' := x.(pc := Committing,
                 delta := x.delta.(rows := map[m := RenamedRow(x.row, x.job.newSlug, x.job.actor, x.job.began)]));
    assert After(s, t) == Put(s, t, x');
    assert RenameWrites(s.db, x');
    assert RenameSound(s.db, s.clock, x');
  }

  lemma ListedSnoc(names: seq<Slug>, i: nat)
    requires i < |names|
    ensures Listed(names[..0]) == {} && Listed(names[..i + 1]) == Listed(names[..i]) + {names[i]}
  {
  }

  lemma RegisterChecks(s: State, t: Tid)
    requires Ready(s, t) && s.txns[t].job.RegisterJob? && s.txns[t].pc.Checking?
    ensures StaysSound(s, t)
  {
    var x := s.txns[t];
    assert View(s.db, x.delta) == s.db;
    assert t in After(s, t).txns ==> RegisterSound(s.db, After(s, t).txns[t]);
  }

  lemma RegisterLocks(s: State, t: Tid)
    requires Ready(s, t) && s.txns[t].job.RegisterJob? && (s.txns[t].pc.Start? || s.txns[t].pc.Locking?)
    ensures StaysSound(s, t)
  {
    var x := s.txns[t];
    ListedSnoc(Candidates(x.job), x.attempt);
    assert t in After(s, t).txns && RegisterSound(s.db, After(s, t).txns[t]);
  }

  lemma RegisterInserts(s: State, t: Tid)
    requires Ready(s, t) && s.txns[t].job.RegisterJob? && s.txns[t].pc.Updating?
    ensures StaysSound(s, t)
  {
    var x := s.txns[t];
    assert View(s.db, x.delta) == s.db;
    assert t in After(s, t).txns ==> RegisterSound(s.db, After(s, t).txns[t]);
  }

  lemma RegisterAdvances(s: State, t: Tid)
    requires Ready(s, t) && s.txns[t].job.RegisterJob?
    ensures StaysSound(s, t)
  {
    match s.txns[t].pc
    case Checking => RegisterChecks(s, t);
    case Updating => RegisterInserts(s, t);
    case _ => RegisterLocks(s, t);
  }

  lemma OthersAdvance(s: State, t: Tid)
    requires t in s.txns && !s.txns[t].job.RenameJob? && !s.txns[t].job.RegisterJob? && !s.txns[t].pc.Committing?
    requires WellKept(s.db) && Sound(s.db, s.clock, s.txns[t])
    ensures var s' := After(s, t);
            s'.db == s.db && s'.clock == s.clock && (t in s'.txns ==> Sound(s'.db, s'.clock, s'.txns[t]))
  {
    if !s.txns[t].pc.Start? { assert View(s.db, s.txns[t].delta) == s.db; }
  }

  // ---- Committing is atomic ----------------------------------------------------------------

  lemma RenamePublishes(db: Tables, x: Txn)
    requires x.job.RenameJob? && RenameWrites(db, x) && x.pc.Committing?
    ensures View(db, x.delta).history == RetiredHistory(db, x) - Surplus(Own(RetiredHistory(db, x), x.job.mentor))
  {
    var surplus := Surplus(Own(RetiredHistory(db, x), x.job.mentor));
    var gone, put := Reclaimed(db, x.job.newSlug) + surplus, map[x.row.slug := Stamped(x)] - surplus;
    assert (db.history - gone) + put == RetiredHistory(db, x) - surplus;
  }

  lemma RenameCommits(db: Tables, clock: int, x: Txn)
    requires WellKept(db) && x.job.RenameJob? && x.pc.Committing? && Sound(db, clock, x)
    ensures Allowed(db, OpOf(x)) && View(db, x.delta) == Apply(db, OpOf(x))
  {
    RenamePublishes(db, x);
    var m := x.job.mentor;
    assert View(db, x.delta).mentors == db.mentors[m := RenamedRow(x.row, x.job.newSlug, x.job.actor, x.job.began)];
    assert View(db, x.delta).issued == db.issued;
  }

  lemma RegisterCommits(db: Tables, x: Txn)
    requires x.job.RegisterJob? && x.pc.Committing? && RegisterSound(db, x)
    ensures Allowed(db, OpOf(x)) && View(db, x.delta) == Apply(db, OpOf(x))
  {
    var name := Candidates(x.job)[x.attempt];
    assert name != "";
    assert View(db, x.delta).mentors == db.mentors[x.job.mentor := Mentor(name, None, None)];
    assert View(db, x.delta).history == db.history;
  }

  lemma PurgeCommits(db: Tables, clock: int, x: Txn)
    requires x.job.PurgeJob? && x.pc.Committing? && Sound(db, clock, x)
    ensures Allowed(db, OpOf(x)) && View(db, x.delta) == Apply(db, OpOf(x))
  {
    assert View(db, x.delta).history == db.history - Own(db.history, x.job.mentor).Keys;
  }

  lemma MarkCommits(db: Tables, clock: int, x: Txn)
    requires (x.job.SoftDeleteJob? || x.job.RestoreJob?) && x.pc.Committing? && Sound(db, clock, x) && WellKept(db)
    ensures Allowed(db, OpOf(x)) && View(db, x.delta) == Apply(db, OpOf(x))
  {
    var m := x.job.mentor;
    assert db.issued + {m} == db.issued;
    assert View(db, x.delta).mentors == db.mentors[m := x.delta.rows[m]];
  }

  /** The interleaved statements of a transaction amount, at its commit, to the one
      atomic operation on the tables as they then are. */
  lemma CommitIsAtomic(db: Tables, clock: int, x: Txn)
    requires WellKept(db) && x.pc.Committing? && Sound(db, clock, x)
    ensures Allowed(db, OpOf(x)) && View(db, x.delta) == Apply(db, OpOf(x))
  {
    match x.job
    case RenameJob(_, _, _, _, _) => RenameCommits(db, clock, x);
    case RegisterJob(_, _, _, _) => RegisterCommits(db, x);
    case PurgeJob(_, _) => PurgeCommits(db, clock, x);
    case _ => MarkCommits(db, clock, x);
  }

  // ---- Nobody else's commit disturbs a transaction -------------------------------------------

  lemma RetiredOwn(db: Tables, x: Txn)
    requires x.job.RenameJob?
    ensures Own(RetiredHistory(db, x), x.job.mentor)
         == (Own(db.history, x.job.mentor) - {x.job.newSlug})[x.row.slug := Stamped(x)]
  {
  }

  lemma RenameUndisturbed(db: Tables, clock: int, x: Txn, op: Op)
    requires x.job.RenameJob? && !x.pc.Start? && RenameSound(db, clock, x)
    requires WellKept(db) && Allowed(db, op) && op.mentor != x.job.mentor && Names(db, op) !! x.held
    ensures RenameSound(Apply(db, op), clock, x)
  {
    var db' := Apply(db, op);
    OthersUntouched(db, op, x.job.mentor);
    assert Matches(db', x.job) && db'.mentors[x.job.mentor] == x.row;
    if !x.pc.Locking? && !x.pc.Checking? {
      var newSlug := x.job.newSlug;
      assert x.row.slug in x.held && newSlug in x.held;
      FreeNamesStayFree(db, op, newSlug);
      assert newSlug in db.history <==> newSlug in Own(db.history, x.job.mentor);
      assert newSlug in Own(db'.history, x.job.mentor) ==> newSlug in db'.history;
      RetiredOwn(db, x);
      RetiredOwn(db', x);
      assert Judge(db', x.job.mentor, newSlug, CooldownOf(x.job.actor), x.job.now) == Granted;
      assert RenameWrites(db', x);
    }
  }

  lemma Undisturbed(db: Tables, clock: int, x: Txn, op: Op)
    requires WellKept(db) && Allowed(db, op) && Sound(db, clock, x)
    requires op.mentor !in x.rows && Names(db, op) !! x.held
    requires x.job.RegisterJob? && op.Register? ==> op.mentor != x.job.mentor
    ensures Sound(Apply(db, op), clock, x)
  {
    var db' := Apply(db, op);
    if x.job.RenameJob? {
      if !x.pc.Start? { RenameUndisturbed(db, clock, x, op); }
    } else if x.job.RegisterJob? {
      var name := Candidates(x.job)[x.attempt];
      assert db'.issued <= db.issued + {op.mentor};
      if x.pc.Updating? || x.pc.Committing? {
        assert name in Candidates(x.job)[..x.attempt + 1];
        FreeNamesStayFree(db, op, name);
      }
    } else if !x.pc.Start? {
      OthersUntouched(db, op, x.job.mentor);
      assert Matches(db', x.job) && db'.mentors[x.job.mentor] == db.mentors[x.job.mentor];
    }
  }
}
