/** Magic links and the sessions minted from them: verifications that consume first and
    sign later, between any other writes to the mentors table. */
module LoginLinks {
  import opened Prelude
  import opened Lifecycle

  type Pid = nat

  /** A signed session: whose, the session_version it carries, the link it came from. */
  datatype Session = Session(mentor: Id, version: nat, link: Token)

  datatype Proc = Verifying(link: Token) | Minting(session: Session)

  /** `used` are all login tokens ever generated, `ids` all mentors ever registered. */
  datatype State = State(db: Table, clock: int, used: set<Token>, ids: set<Id>, procs: map<Pid, Proc>,
                         spent: set<Token>, minted: set<Session>)

  // ---- Sessions ---------------------------------------------------------------------

  predicate MayHoldMentorSession(status: Status) {
    status in {Draft, Pending, Active, Inactive}
  }

  /** A claim of 0 predates the counter and is let through. */
  predicate SessionVersionCurrent(claimed: nat, current: nat) {
    claimed == 0 || claimed == current
  }

  /** The live check of a request against the row as it now is. */
  predicate Passes(db: Table, session: Session) {
    && session.mentor in db
    && db[session.mentor].deletedAt.None? && MayHoldMentorSession(db[session.mentor].status)
    && SessionVersionCurrent(session.version, db[session.mentor].version)
  }

  /** Exactly the sessions of a mentor who exists, is neither deleted nor declined, and
      has not revoked them; a session from before the counter cannot be revoked. */
  lemma PassesIff(db: Table, session: Session)
    ensures Passes(db, session) <==>
              && session.mentor in db && db[session.mentor].deletedAt.None? && db[session.mentor].status != Declined
              && (session.version == 0 || session.version == db[session.mentor].version)
  {
  }

  // ---- Steps -----------------------------------------------------------------------

  predicate Opens(db: Table, m: Id, link: Token, now: int) {
    Applies(db, ConsumeLogin(link), m, now)
  }

  ghost function Verified(s: State, p: Pid, link: Token): State {
    if exists m :: Opens(s.db, m, link, s.clock) then
      var m :| Opens(s.db, m, link, s.clock);
      var after := s.(db := Exec(s.db, ConsumeLogin(link), s.clock), spent := s.spent + {link});
      if MayHoldMentorSession(s.db[m].status)
      then after.(procs := s.procs[p := Minting(Session(m, s.db[m].version, link))])
      else after.(procs := s.procs - {p})
    else s.(procs := s.procs - {p})
  }

  ghost function After(s: State, p: Pid): State
    requires p in s.procs
  {
    match s.procs[p]
    case Verifying(link) => Verified(s, p, link)
    case Minting(session) => s.(minted := s.minted + {session}, procs := s.procs - {p})
  }

  /** Every other write; a login token or a mentor id is generated only once. */
  predicate Fresh(s: State, stmt: Stmt) {
    match stmt
    case ConsumeLogin(_) => false
    case SetLogin(_, secret) => secret.token !in s.used
    case Insert(m) => m !in s.ids
    case _ => true
  }

  function Written(s: State, stmt: Stmt): State {
    s.(db := Exec(s.db, stmt, s.clock),
       used := s.used + (if stmt.SetLogin? then {stmt.secret.token} else {}),
       ids := s.ids + (if stmt.Insert? then {stmt.mentor} else {}))
  }

  datatype Event = Begin(p: Pid, link: Token) | Step(p: Pid) | Abort(p: Pid) | Sql(stmt: Stmt) | Tick(d: nat)

  ghost predicate Next(s: State, e: Event, s': State) {
    match e
    case Begin(p, link) => p !in s.procs && s' == s.(procs := s.procs[p := Verifying(link)])
    case Step(p) => p in s.procs && s' == After(s, p)
    case Abort(p) => p in s.procs && s' == s.(procs := s.procs - {p})
    case Sql(stmt) => Fresh(s, stmt) && s' == Written(s, stmt)
    case Tick(d) => s' == s.(clock := s.clock + d)
  }

  /** Any table of hidden deletions and positive versions in which no two rows carry the
      same link. */
  ghost predicate Initial(s: State) {
    && s.procs == map[] && s.spent == {} && s.minted == {}
    && DeletedAreHidden(s.db) && Versioned(s.db) && s.db.Keys <= s.ids && LinksSound(s)
  }

  ghost predicate Run(states: seq<State>, events: seq<Event>) {
    |states| == |events| + 1 && Initial(states[0]) &&
    forall i :: 0 <= i < |events| ==> Next(states[i], events[i], states[i + 1])
  }

  // ---- The invariant ----------------------------------------------------------------

  predicate Holds(db: Table, m: Id, link: Token) {
    m in db && db[m].login.Some? && db[m].login.value.token == link
  }

  ghost predicate Unheld(db: Table, link: Token) {
    forall m :: m in db ==> !Holds(db, m, link)
  }

  ghost predicate LinksSound(s: State) {
    && s.spent <= s.used
    && (forall m, link :: Holds(s.db, m, link) ==> link in s.used && link !in s.spent)
    && (forall m, n, link :: Holds(s.db, m, link) && Holds(s.db, n, link) ==> m == n)
  }

  ghost predicate SessionSound(s: State, session: Session) {
    && session.link in s.spent && session.version >= 1 && session.mentor in s.ids
    && (session.mentor in s.db ==> session.version <= s.db[session.mentor].version)
  }

  ghost predicate SessionsSound(s: State) {
    && (forall x :: x in s.minted ==> SessionSound(s, x))
    && (forall x, y :: x in s.minted && y in s.minted && x.link == y.link ==> x == y)
    && (forall p :: p in s.procs && s.procs[p].Minting? ==>
          SessionSound(s, s.procs[p].session) && forall x :: x in s.minted ==> x.link != s.procs[p].session.link)
    && (forall p, q :: p in s.procs && q in s.procs && p != q && s.procs[p].Minting? && s.procs[q].Minting? ==>
          s.procs[p].session.link != s.procs[q].session.link)
  }

  ghost predicate Inv(s: State) {
    DeletedAreHidden(s.db) && Versioned(s.db) && s.db.Keys <= s.ids && LinksSound(s) && SessionsSound(s)
  }

  // ---- Preservation -------------------------------------------------------------------

  lemma ExecOnRow(db: Table, stmt: Stmt, now: int, m: Id)
    requires m in Exec(db, stmt, now) && !stmt.Insert?
    ensures m in db
    ensures Exec(db, stmt, now)[m] ==
              if !stmt.Purge? && Where(stmt, m, db[m], now) then Set(stmt, db[m], now) else db[m]
  {
  }

  /** A statement puts a token into a row only by SetLogin. */
  lemma ExecHolds(db: Table, stmt: Stmt, now: int, m: Id, link: Token)
    requires Holds(Exec(db, stmt, now), m, link)
    ensures Holds(db, m, link) || (stmt.SetLogin? && stmt.mentor == m && stmt.secret.token == link)
    ensures !(stmt.ConsumeLogin? && stmt.token == link && Where(stmt, m, db[m], now))
  {
    if !stmt.Insert? { ExecOnRow(db, stmt, now, m); }
  }

  lemma LinksKept(s: State, stmt: Stmt)
    requires Inv(s) && Fresh(s, stmt)
    ensures LinksSound(Written(s, stmt))
  {
    forall m, link | Holds(Written(s, stmt).db, m, link)
      ensures Holds(s.db, m, link) || (stmt.SetLogin? && stmt.mentor == m && stmt.secret.token == link)
    {
      ExecHolds(s.db, stmt, s.clock, m, link);
    }
  }

  lemma SessionsKept(s: State, s': State)
    requires SessionsSound(s) && s'.procs == s.procs && s'.minted == s.minted && s'.spent == s.spent && s.ids <= s'.ids
    requires forall m :: m in s'.db ==> (m in s.db && s.db[m].version <= s'.db[m].version) || m !in s.ids
    ensures SessionsSound(s')
  {
  }

  lemma SqlKeepsInv(s: State, stmt: Stmt)
    requires Inv(s) && Fresh(s, stmt)
    ensures Inv(Written(s, stmt))
  {
    ExecKeeps(s.db, stmt, s.clock, 0);
    LinksKept(s, stmt);
    forall m | m in Written(s, stmt).db && m in s.ids
      ensures m in s.db && s.db[m].version <= Written(s, stmt).db[m].version
    {
      ExecKeeps(s.db, stmt, s.clock, m);
    }
    SessionsKept(s, Written(s, stmt));
  }

  /** The row a link opens is the only one it is stored in, and loses it. */
  lemma OpeningTakesTheLink(s: State, m: Id, link: Token)
    requires Inv(s) && Opens(s.db, m, link, s.clock)
    ensures var db := Exec(s.db, ConsumeLogin(link), s.clock);
            && Unheld(db, link) && db.Keys == s.db.Keys
            && db == s.db[m := s.db[m].(login := None)]
  {
    assert Holds(s.db, m, link);
    forall n | n in s.db && n != m ensures !Holds(s.db, n, link) {}
  }

  lemma ConsumingKeepsInv(s: State, link: Token, m: Id)
    requires Inv(s) && Opens(s.db, m, link, s.clock)
    ensures Inv(s.(db := s.db[m := s.db[m].(login := None)], spent := s.spent + {link}))
  {
    assert Holds(s.db, m, link);
    var db := s.db[m := s.db[m].(login := None)];
    forall n, l | Holds(db, n, l) ensures Holds(s.db, n, l) && l != link {
      assert n != m && Holds(s.db, n, l) && Holds(s.db, m, link);
    }
  }

  /** A session of a link spent just now is nobody else's. */
  lemma MintingKeepsInv(s: State, p: Pid, session: Session)
    requires Inv(s) && SessionSound(s, session) && forall x :: x in s.minted ==> x.link != session.link
    requires forall q :: q in s.procs && s.procs[q].Minting? ==> s.procs[q].session.link != session.link
    ensures Inv(s.(procs := s.procs[p := Minting(session)]))
  {
  }

  lemma VerifyKeepsInv(s: State, p: Pid, link: Token, m: Id)
    requires Inv(s) && p in s.procs && s.procs[p] == Verifying(link) && Opens(s.db, m, link, s.clock)
    ensures var session := Session(m, s.db[m].version, link);
            var s' := s.(db := Exec(s.db, ConsumeLogin(link), s.clock), spent := s.spent + {link});
            Inv(s'.(procs := s.procs[p := Minting(session)])) && Inv(s'.(procs := s.procs - {p}))
  {
    assert Holds(s.db, m, link) && link !in s.spent;
    OpeningTakesTheLink(s, m, link);
    ConsumingKeepsInv(s, link, m);
    var s' := s.(db := Exec(s.db, ConsumeLogin(link), s.clock), spent := s.spent + {link});
    MintingKeepsInv(s', p, Session(m, s.db[m].version, link));
  }

  lemma StepKeepsInv(s: State, p: Pid)
    requires Inv(s) && p in s.procs
    ensures Inv(After(s, p))
  {
    if s.procs[p].Verifying? {
      var link := s.procs[p].link;
      if exists m :: Opens(s.db, m, link, s.clock) {
        var m :| Opens(s.db, m, link, s.clock);
        forall n | Opens(s.db, n, link, s.clock) ensures n == m { assert Holds(s.db, m, link) && Holds(s.db, n, link); }
        VerifyKeepsInv(s, p, link, m);
      }
    }
  }

  lemma NextKeepsInv(s: State, e: Event, s': State)
    requires Inv(s) && Next(s, e, s')
    ensures Inv(s')
  {
    match e
    case Step(p) => StepKeepsInv(s, p);
    case Sql(stmt) => SqlKeepsInv(s, stmt);
    case _ =>
  }

  lemma {:induction false} RunKeepsInv(states: seq<State>, events: seq<Event>)
    requires Run(states, events)
    ensures Inv(states[|events|])
  {
    if events != [] {
      RunKeepsInv(states[..|events|], events[..|events| - 1]);
      NextKeepsInv(states[|events| - 1], events[|events| - 1], states[|events|]);
    }
  }

  // ---- One link, one session ----------------------------------------------------------

  /** Across any number of concurrent verifications a link yields at most one session,
      and every signature is of a new one. */
  lemma OneSessionPerLink(states: seq<State>, events: seq<Event>, x: Session, y: Session)
    requires Run(states, events) && x in states[|events|].minted && y in states[|events|].minted && x.link == y.link
    ensures x == y && x.link in states[|events|].spent
    ensures var s := states[|events|];
            forall p :: p in s.procs && s.procs[p].Minting? ==>
              s.procs[p].session !in s.minted && s.procs[p].session.link != x.link
  {
    RunKeepsInv(states, events);
  }

  /** A verification gets as far as signing exactly when its link is stored, in its
      window, on a profile not deleted, whose status may log in; the link is then gone. */
  lemma LinkOpensIffGood(s: State, p: Pid)
    requires Inv(s) && p in s.procs && s.procs[p].Verifying?
    ensures var link := s.procs[p].link;
            p in After(s, p).procs <==>
              exists m :: Holds(s.db, m, link) && s.db[m].login.value.expires >= s.clock && s.db[m].deletedAt.None?
                       && s.db[m].status != Declined
    ensures p in After(s, p).procs ==> Unheld(After(s, p).db, s.procs[p].link)
  {
    var link := s.procs[p].link;
    if exists m :: Opens(s.db, m, link, s.clock) {
      var m :| Opens(s.db, m, link, s.clock);
      OpeningTakesTheLink(s, m, link);
      forall n | Holds(s.db, n, link) ensures n == m { assert Holds(s.db, m, link); }
      assert Holds(s.db, m, link);
    } else {
      forall m | Holds(s.db, m, link) && s.db[m].login.value.expires >= s.clock ensures s.db[m].deletedAt.Some? {
        assert !Opens(s.db, m, link, s.clock);
      }
    }
  }

  /** A newer link, or the deletion of the profile, takes the old one out of the table. */
  lemma ReplacedLinkIsGone(s: State, m: Id, link: Token, stmt: Stmt)
    requires Inv(s) && Holds(s.db, m, link) && Fresh(s, stmt)
    requires (stmt.SetLogin? && stmt.mentor == m) || (stmt == SoftDelete(m) && Applies(s.db, stmt, m, s.clock))
    ensures Unheld(Written(s, stmt).db, link) && link in Written(s, stmt).used
  {
    forall n | n in Written(s, stmt).db ensures !Holds(Written(s, stmt).db, n, link) {
      ExecOnRow(s.db, stmt, s.clock, n);
      if n != m && n in s.db { assert !Holds(s.db, n, link); }
    }
  }

  lemma UnheldStays(s: State, e: Event, s': State, link: Token)
    requires Inv(s) && Next(s, e, s') && link in s.used && Unheld(s.db, link)
    ensures link in s'.used && Unheld(s'.db, link)
  {
    forall m | m in s'.db ensures !Holds(s'.db, m, link) {
      match e
      case Sql(stmt) => if Holds(s'.db, m, link) { ExecHolds(s.db, stmt, s.clock, m, link); }
      case Step(p) =>
        if s.procs[p].Verifying? && Holds(s'.db, m, link) && s'.db != s.db {
          ExecHolds(s.db, ConsumeLogin(s.procs[p].link), s.clock, m, link);
        }
      case _ =>
    }
  }

  /** A link that has left the table never comes back: no later verification of it gets
      a session, whatever happens to the profile. */
  lemma {:induction false} DeadLinkStaysDead(states: seq<State>, events: seq<Event>, k: nat, link: Token, p: Pid)
    requires Run(states, events) && k <= |events| && link in states[k].used && Unheld(states[k].db, link)
    ensures var s := states[|events|];
            link in s.used && Unheld(s.db, link) &&
              (p in s.procs && s.procs[p] == Verifying(link) ==> p !in After(s, p).procs)
  {
    RunKeepsInv(states, events);
    if k < |events| {
      var n := |events| - 1;
      DeadLinkStaysDead(states[..n + 1], events[..n], k, link, p);
      RunKeepsInv(states[..n + 1], events[..n]);
      UnheldStays(states[n], events[n], states[n + 1], link);
    }
    if p in states[|events|].procs && states[|events|].procs[p] == Verifying(link) {
      LinkOpensIffGood(states[|events|], p);
    }
  }

  // ---- Revocation -----------------------------------------------------------------------

  /** Sessions, signed or about to be, whose link was consumed by some moment. */
  predicate Issued(s: State, x: Session) {
    x in s.minted || exists p :: p in s.procs && s.procs[p] == Minting(x)
  }

  ghost predicate Outdated(s: State, m: Id, spent: set<Token>, version: nat) {
    && m in s.ids && spent <= s.spent
    && (forall x :: Issued(s, x) && x.mentor == m && x.link in spent ==> x.version <= version)
    && (m in s.db ==> s.db[m].version > version)
  }

  lemma VerifiedIssues(s: State, p: Pid, x: Session)
    requires Inv(s) && p in s.procs && Issued(After(s, p), x)
    ensures Issued(s, x) || x.link !in s.spent
  {
    var s' := After(s, p);
    if x !in s.minted && s.procs[p].Verifying? {
      var q :| q in s'.procs && s'.procs[q] == Minting(x);
      if q != p { assert s.procs[q] == Minting(x); }
      else {
        var m :| Opens(s.db, m, x.link, s.clock);
        assert Holds(s.db, m, x.link);
      }
    }
  }

  lemma OutdatedStays(s: State, e: Event, s': State, m: Id, spent: set<Token>, version: nat)
    requires Inv(s) && Next(s, e, s') && Outdated(s, m, spent, version)
    ensures Outdated(s', m, spent, version)
  {
    match e
    case Begin(p, link) =>
      forall x | Issued(s', x) ensures Issued(s, x) {
        if x !in s.minted { var q :| q in s'.procs && s'.procs[q] == Minting(x); assert s.procs[q] == Minting(x); }
      }
    case Abort(p) =>
      forall x | Issued(s', x) ensures Issued(s, x) {
        if x !in s.minted { var q :| q in s'.procs && s'.procs[q] == Minting(x); assert s.procs[q] == Minting(x); }
      }
    case Tick(d) =>
      assert forall x :: Issued(s', x) <==> Issued(s, x);
    case Sql(stmt) =>
      assert forall x :: Issued(s', x) <==> Issued(s, x);
      ExecKeeps(s.db, stmt, s.clock, m);
    case Step(p) =>
      forall x | Issued(s', x) && x.link in spent ensures Issued(s, x) { VerifiedIssues(s, p, x); }
      if s.procs[p].Verifying? { ExecKeeps(s.db, ConsumeLogin(s.procs[p].link), s.clock, m); }
  }

  predicate Revokes(s: State, stmt: Stmt, m: Id) {
    m in s.db && (stmt == Bump(m) || (stmt == SoftDelete(m) && Applies(s.db, stmt, m, s.clock)))
  }

  lemma RevocationOutdates(s: State, stmt: Stmt, m: Id)
    requires Inv(s) && Revokes(s, stmt, m)
    ensures Outdated(Written(s, stmt), m, s.spent, s.db[m].version)
  {
    var s' := Written(s, stmt);
    assert s'.db[m].version == s.db[m].version + 1;
    forall x | Issued(s', x) && x.mentor == m ensures x.version <= s.db[m].version {
      assert Issued(s, x);
    }
  }

  lemma {:induction false} OutdatedEver(states: seq<State>, events: seq<Event>, k: nat, m: Id, spent: set<Token>,
      version: nat)
    requires Run(states, events) && k <= |events| && Outdated(states[k], m, spent, version)
    ensures Outdated(states[|events|], m, spent, version)
  {
    if k < |events| {
      var n := |events| - 1;
      OutdatedEver(states[..n + 1], events[..n], k, m, spent, version);
      RunKeepsInv(states[..n + 1], events[..n]);
      OutdatedStays(states[n], events[n], states[n + 1], m, spent, version);
    }
  }

  /** Once a logout or a deletion commits, no session whose link was consumed before it
      passes a live check ever again: not those signed only afterwards, and not after
      the profile is restored. */
  lemma RevokedStaysRevoked(states: seq<State>, events: seq<Event>, k: nat, stmt: Stmt, m: Id, x: Session)
    requires Run(states, events) && k < |events| && events[k] == Sql(stmt) && Revokes(states[k], stmt, m)
    requires x in states[|events|].minted && x.mentor == m && x.link in states[k].spent
    ensures !Passes(states[|events|].db, x)
  {
    assert Run(states[..k + 1], events[..k]);
    RunKeepsInv(states[..k + 1], events[..k]);
    RevocationOutdates(states[k], stmt, m);
    OutdatedEver(states, events, k + 1, m, states[k].spent, states[k].db[m].version);
    RunKeepsInv(states, events);
    assert Issued(states[|events|], x) && SessionSound(states[|events|], x);
  }

  // ---- What a session is worth ------------------------------------------------------------

  predicate RevokedAt(states: seq<State>, events: seq<Event>, k: nat, m: Id) {
    k < |events| && k < |states| && events[k].Sql? && Revokes(states[k], events[k].stmt, m)
  }

  ghost predicate RevokedBetween(states: seq<State>, events: seq<Event>, i: nat, j: nat, m: Id) {
    exists k: nat :: i <= k < j && RevokedAt(states, events, k, m)
  }

  lemma ExecVersion(db: Table, stmt: Stmt, now: int, m: Id)
    requires m in Exec(db, stmt, now) && stmt != Insert(m)
    ensures m in db
    ensures Exec(db, stmt, now)[m].version
         == db[m].version + if stmt == Bump(m) || (stmt == SoftDelete(m) && Applies(db, stmt, m, now)) then 1 else 0
  {
  }

  /** Only a logout or a deletion that applies moves the counter, and an id once gone
      never returns. */
  lemma NextVersion(s: State, e: Event, s': State, m: Id)
    requires Inv(s) && Next(s, e, s') && m in s.ids
    ensures m in s'.ids
    ensures m in s'.db ==> m in s.db
    ensures m in s'.db ==>
              s'.db[m].version == s.db[m].version + if e.Sql? && Revokes(s, e.stmt, m) then 1 else 0
  {
    if m in s'.db {
      match e
      case Sql(stmt) => ExecVersion(s.db, stmt, s.clock, m);
      case Step(p) => if s'.db != s.db { ExecVersion(s.db, ConsumeLogin(s.procs[p].link), s.clock, m); }
      case _ =>
    }
  }

  lemma {:induction false} VersionCountsRevocations(states: seq<State>, events: seq<Event>, i: nat, j: nat, m: Id)
    requires Run(states, events) && i <= j <= |events| && m in states[i].ids
    ensures m in states[j].ids && (m in states[j].db ==> m in states[i].db)
    ensures m in states[j].db ==> states[i].db[m].version <= states[j].db[m].version
    ensures m in states[j].db ==>
              (states[i].db[m].version == states[j].db[m].version <==> !RevokedBetween(states, events, i, j, m))
    decreases j
  {
    if i < j {
      var k := j - 1;
      VersionCountsRevocations(states, events, i, k, m);
      assert Run(states[..k + 1], events[..k]);
      RunKeepsInv(states[..k + 1], events[..k]);
      NextVersion(states[k], events[k], states[j], m);
      assert RevokedBetween(states, events, i, j, m) <==>
             RevokedBetween(states, events, i, k, m) || RevokedAt(states, events, k, m);
    }
  }

  lemma OpenedSession(s: State, p: Pid, x: Session)
    requires Inv(s) && p in s.procs && s.procs[p].Verifying?
    requires p in After(s, p).procs && After(s, p).procs[p] == Minting(x)
    ensures x.mentor in s.db && x.version == s.db[x.mentor].version
  {
    var m :| Opens(s.db, m, s.procs[p].link, s.clock);
    forall n | Opens(s.db, n, s.procs[p].link, s.clock) ensures n == m {
      assert Holds(s.db, m, s.procs[p].link) && Holds(s.db, n, s.procs[p].link);
    }
  }

  /** The session of a link consumed at step j passes a live check, at any later moment,
      exactly while its mentor exists, is neither deleted nor declined, and has not logged
      out or been deleted since the link was consumed. */
  lemma SessionLivesUntilRevoked(states: seq<State>, events: seq<Event>, j: nat, p: Pid, x: Session)
    requires Run(states, events) && j < |events| && events[j] == Step(p)
    requires p in states[j].procs && states[j].procs[p].Verifying?
    requires p in states[j + 1].procs && states[j + 1].procs[p] == Minting(x)
    ensures var db := states[|events|].db;
            Passes(db, x) <==>
              && x.mentor in db && db[x.mentor].deletedAt.None? && db[x.mentor].status != Declined
              && !RevokedBetween(states, events, j, |events|, x.mentor)
  {
    assert Run(states[..j + 1], events[..j]) && Run(states[..j + 2], events[..j + 1]);
    RunKeepsInv(states[..j + 1], events[..j]);
    RunKeepsInv(states[..j + 2], events[..j + 1]);
    assert SessionSound(states[j + 1], x);
    OpenedSession(states[j], p, x);
    VersionCountsRevocations(states, events, j, |events|, x.mentor);
    PassesIff(states[|events|].db, x);
  }
}
