/** The mentors table as the SQL sees it. Each write is one UPDATE, a WHERE and a SET,
    re-judged on the row as committed, whatever its caller read before: any order of
    statements stands for services acting on stale reads. */
module Lifecycle {
  import opened Prelude

  type Id = nat
  type Token = string

  datatype Status = Draft | Pending | Active | Inactive | Declined

  /** A one-time token at rest, with the end of its window. */
  datatype Secret = Secret(token: Token, expires: int)

  datatype Row = Row(status: Status, deletedAt: Option<int>, activatedAt: Option<int>, version: nat,
                     login: Option<Secret>, confirmation: Option<Secret>, sortOrder: Option<int>)

  type Table = map<Id, Row>

  datatype Stmt =
    | Insert(mentor: Id)
    | SetStatus(mentor: Id, status: Status)
    | Approve(mentor: Id)
    | ReturnToDraft(mentor: Id)
    | SetLogin(mentor: Id, secret: Secret)
    | ConsumeLogin(token: Token)
    | Bump(mentor: Id)
    | ConsumeConfirmation(token: Token)
    | Rotate(token: Token, secret: Secret)
    | SoftDelete(mentor: Id)
    | Restore(mentor: Id)
    | Finalize(mentor: Id, claim: Claim, expected: Option<Token>)
    | Release(mentor: Id, claim: Claim)
    | Deactivate(mentor: Id)
    | Reorder(mentor: Id, sortOrder: int)
    | Purge(mentor: Id)

  /** What the new-mentor job writes: a draft with a confirmation token, or a duplicate
      declined without one. */
  datatype Claim = Claim(secret: Option<Secret>, sortOrder: int)

  function ClaimStatus(c: Claim): Status {
    if c.secret.Some? then Draft else Declined
  }

  function TokenOf(s: Option<Secret>): Option<Token> {
    if s.Some? then Some(s.value.token) else None
  }

  const REGISTERED := Row(Draft, None, None, 1, None, None, None)

  predicate Where(stmt: Stmt, m: Id, row: Row, now: int) {
    match stmt
    case Insert(_) => false
    case SetStatus(id, status) => m == id && row.deletedAt.None? && !(status == Draft && row.activatedAt.Some?)
    case Approve(id) => m == id && row.deletedAt.None?
    case ReturnToDraft(id) => m == id && row.activatedAt.None? && row.deletedAt.None?
    case SetLogin(id, _) => m == id
    case ConsumeLogin(token) =>
      row.login.Some? && row.login.value.token == token && row.login.value.expires >= now && row.deletedAt.None?
    case Bump(id) => m == id
    case ConsumeConfirmation(token) =>
      row.confirmation.Some? && row.confirmation.value.token == token && row.status == Draft
      && row.confirmation.value.expires >= now
    case Rotate(token, _) => row.confirmation.Some? && row.confirmation.value.token == token && row.status == Draft
    case SoftDelete(id) => m == id && row.deletedAt.None?
    case Restore(id) => m == id && row.deletedAt.Some?
    case Finalize(id, _, expected) =>
      m == id && row.status == Draft && TokenOf(row.confirmation) == expected
      && (row.confirmation.None? || row.confirmation.value.expires <= now)
    case Release(id, claim) =>
      m == id && row.status == ClaimStatus(claim) && row.sortOrder == Some(claim.sortOrder)
      && TokenOf(row.confirmation) == TokenOf(claim.secret)
    case Deactivate(id) => m == id && row.status == Active
    case Reorder(id, _) => m == id
    case Purge(id) => m == id && row.deletedAt.Some?
  }

  function Set(stmt: Stmt, row: Row, now: int): Row {
    match stmt
    case SetStatus(_, status) => row.(status := status)
    case Approve(_) =>
      row.(status := Active, activatedAt := if row.activatedAt.Some? then row.activatedAt else Some(now))
    case ReturnToDraft(_) => row.(status := Draft)
    case SetLogin(_, secret) => row.(login := Some(secret))
    case ConsumeLogin(_) => row.(login := None)
    case Bump(_) => row.(version := row.version + 1)
    case ConsumeConfirmation(_) => row.(status := Pending, confirmation := None)
    case Rotate(_, secret) => row.(confirmation := Some(secret))
    case SoftDelete(_) => row.(deletedAt := Some(now), status := Inactive, login := None, version := row.version + 1)
    case Restore(_) => row.(deletedAt := None, status := Inactive)
    case Finalize(_, claim, _) =>
      row.(login := None, status := ClaimStatus(claim), sortOrder := Some(claim.sortOrder),
        confirmation := claim.secret)
    case Release(_, _) => row.(status := Draft, sortOrder := None, confirmation := None)
    case Deactivate(_) => row.(status := Inactive)
    case Reorder(_, n) => row.(sortOrder := Some(n))
    case _ => row
  }

  predicate Applies(db: Table, stmt: Stmt, m: Id, now: int) {
    m in db && Where(stmt, m, db[m], now)
  }

  function Exec(db: Table, stmt: Stmt, now: int): Table {
    match stmt
    case Insert(m) => if m in db then db else db[m := REGISTERED]
    case Purge(m) => if Applies(db, stmt, m, now) then db - {m} else db
    case _ => map m | m in db :: if Where(stmt, m, db[m], now) then Set(stmt, db[m], now) else db[m]
  }

  datatype Timed = Timed(stmt: Stmt, now: int)

  function Replay(db: Table, run: seq<Timed>): Table {
    if run == [] then db else Exec(Replay(db, run[..|run| - 1]), run[|run| - 1].stmt, run[|run| - 1].now)
  }

  // ---- What the guards keep ---------------------------------------------------------

  ghost predicate DeletedAreHidden(db: Table) {
    forall m :: m in db && db[m].deletedAt.Some? ==> db[m].status == Inactive
  }

  ghost predicate Versioned(db: Table) {
    forall m :: m in db ==> db[m].version >= 1
  }

  ghost predicate NeverDraftAgain(db: Table) {
    forall m :: m in db && db[m].activatedAt.Some? ==> db[m].status != Draft
  }

  /** No statement makes a deleted profile anything but inactive, moves an activation
      stamp, or takes a session version back. */
  lemma ExecKeeps(db: Table, stmt: Stmt, now: int, m: Id)
    requires DeletedAreHidden(db) && Versioned(db)
    ensures DeletedAreHidden(Exec(db, stmt, now)) && Versioned(Exec(db, stmt, now))
    ensures m in db && m in Exec(db, stmt, now) ==>
              && (db[m].activatedAt.Some? ==> Exec(db, stmt, now)[m].activatedAt == db[m].activatedAt)
              && db[m].version <= Exec(db, stmt, now)[m].version
  {
  }

  /** The one statement that drafts a once-activated profile is the worker's release of
      a declined duplicate, whose guard does not look at the activation stamp. */
  lemma DraftedAgainIff(db: Table, stmt: Stmt, now: int, m: Id)
    requires DeletedAreHidden(db) && m in db && db[m].activatedAt.Some? && db[m].status != Draft
    ensures m in Exec(db, stmt, now) && Exec(db, stmt, now)[m].status == Draft
       <==> && stmt.Release? && stmt.mentor == m && db[m].status == ClaimStatus(stmt.claim)
            && db[m].sortOrder == Some(stmt.claim.sortOrder)
            && TokenOf(db[m].confirmation) == TokenOf(stmt.claim.secret)
  {
  }

  predicate ReleasesActivated(db: Table, t: Timed) {
    t.stmt.Release? && Applies(db, t.stmt, t.stmt.mentor, t.now) && db[t.stmt.mentor].activatedAt.Some?
  }

  /** Over any run that never releases a profile activated in the meantime. */
  ghost predicate NoLateRelease(db: Table, run: seq<Timed>) {
    forall i :: 0 <= i < |run| ==> !ReleasesActivated(Replay(db, run[..i]), run[i])
  }

  lemma ExecKeepsActivated(db: Table, t: Timed)
    requires DeletedAreHidden(db) && NeverDraftAgain(db)
    ensures NeverDraftAgain(Exec(db, t.stmt, t.now)) <==> !ReleasesActivated(db, t)
  {
    var after := Exec(db, t.stmt, t.now);
    if ReleasesActivated(db, t) {
      assert after[t.stmt.mentor].status == Draft && after[t.stmt.mentor].activatedAt.Some?;
    }
  }

  /** Whatever services read and however late they write, in every run a deleted profile
      is inactive. */
  lemma {:induction false} GuardsHold(db: Table, run: seq<Timed>)
    requires DeletedAreHidden(db) && Versioned(db)
    ensures DeletedAreHidden(Replay(db, run)) && Versioned(Replay(db, run))
  {
    if run != [] {
      var k := |run| - 1;
      GuardsHold(db, run[..k]);
      ExecKeeps(Replay(db, run[..k]), run[k].stmt, run[k].now, 0);
    }
  }

  /** Profiles once activated stay out of draft for as long as no release of a failed
      send comes after an approval. */
  lemma {:induction false} ActivatedStayOutOfDraft(db: Table, run: seq<Timed>)
    requires DeletedAreHidden(db) && Versioned(db) && NeverDraftAgain(db) && NoLateRelease(db, run)
    ensures NeverDraftAgain(Replay(db, run))
  {
    if run != [] {
      var k := |run| - 1;
      assert forall i :: 0 <= i < k ==> run[..k][..i] == run[..i];
      ActivatedStayOutOfDraft(db, run[..k]);
      GuardsHold(db, run[..k]);
      ExecKeepsActivated(Replay(db, run[..k]), run[k]);
    }
  }

  ghost predicate StaysSince(db: Table, run: seq<Timed>, i: nat, m: Id) {
    forall j: nat :: i <= j <= |run| ==> m in Replay(db, run[..j])
  }

  /** While its row exists, a mentor's activation stamp, once set, never changes and
      their session version never falls. */
  lemma {:induction false} StampsAndVersionsHold(db: Table, run: seq<Timed>, i: nat, m: Id)
    requires DeletedAreHidden(db) && Versioned(db) && i <= |run| && StaysSince(db, run, i, m)
    ensures m in Replay(db, run[..i]) && m in Replay(db, run)
    ensures var before, after := Replay(db, run[..i])[m], Replay(db, run)[m];
            && (before.activatedAt.Some? ==> after.activatedAt == before.activatedAt)
            && before.version <= after.version
  {
    assert run[..|run|] == run;
    if i < |run| {
      var k := |run| - 1;
      assert forall j: nat :: j <= k ==> run[..k][..j] == run[..j];
      StampsAndVersionsHold(db, run[..k], i, m);
      GuardsHold(db, run[..k]);
      ExecKeeps(Replay(db, run[..k]), run[k].stmt, run[k].now, m);
    }
  }

  // ---- Deletion ------------------------------------------------------------------------

  /** The row is deleted since `at`: nobody deletes, moderates or logs into it; only a
      restore, or a purge, changes that. */
  ghost predicate DeletedSince(db: Table, m: Id, at: int) {
    && m in db && db[m].deletedAt == Some(at) && db[m].status == Inactive
    && forall t ::
         && !Applies(db, SoftDelete(m), m, t) && !Applies(db, Approve(m), m, t) && !Applies(db, ReturnToDraft(m), m, t)
         && !Applies(db, Deactivate(m), m, t) && (forall status :: !Applies(db, SetStatus(m, status), m, t))
         && (forall link :: !Applies(db, ConsumeLogin(link), m, t))
         && Applies(db, Restore(m), m, t) && Applies(db, Purge(m), m, t)
  }

  lemma DeletedIsOutOfReach(db: Table, m: Id, at: int)
    requires m in db && db[m].deletedAt == Some(at) && db[m].status == Inactive
    ensures DeletedSince(db, m, at)
  {
  }

  lemma DeletionDeletes(db: Table, m: Id, now: int)
    requires Applies(db, SoftDelete(m), m, now)
    ensures DeletedSince(Exec(db, SoftDelete(m), now), m, now)
  {
    DeletedIsOutOfReach(Exec(db, SoftDelete(m), now), m, now);
  }

  /** An id is generated once, so no row comes back after its purge. */
  predicate LeavesDeleted(stmt: Stmt, m: Id) {
    stmt != Restore(m) && stmt != Insert(m)
  }

  lemma ExecKeepsDeleted(db: Table, stmt: Stmt, now: int, m: Id, at: int)
    requires m in db ==> DeletedSince(db, m, at)
    requires LeavesDeleted(stmt, m)
    ensures m in Exec(db, stmt, now) ==> m in db && DeletedSince(Exec(db, stmt, now), m, at)
  {
    var after := Exec(db, stmt, now);
    if m in after {
      assert m in db;
      DeletedIsOutOfReach(after, m, at);
    }
  }

  /** From an applied deletion until the next restore, whatever else is written, links
      stored later included: the row carries that deletion's stamp and is out of
      everybody's reach, or it has been purged. */
  lemma {:induction false} DeletedUntilRestored(db: Table, run: seq<Timed>, i: nat, m: Id)
    requires i < |run| && run[i].stmt == SoftDelete(m) && Applies(Replay(db, run[..i]), SoftDelete(m), m, run[i].now)
    requires forall k :: i < k < |run| ==> LeavesDeleted(run[k].stmt, m)
    ensures m in Replay(db, run) ==> DeletedSince(Replay(db, run), m, run[i].now)
  {
    var k := |run| - 1;
    if i == k {
      DeletionDeletes(Replay(db, run[..k]), m, run[k].now);
    } else {
      assert run[..k][..i] == run[..i];
      DeletedUntilRestored(db, run[..k], i, m);
      ExecKeepsDeleted(Replay(db, run[..k]), run[k].stmt, run[k].now, m, run[i].now);
    }
  }

  /** The late release does happen: a duplicate is declined and its mail fails, a
      moderator approves the profile and declines it again, and the release drafts it. */
  lemma ActivatedMentorDrafted(m: Id, sortOrder: int) returns (run: seq<Timed>)
    ensures var db := Replay(map[], run); m in db && db[m].activatedAt.Some? && db[m].status == Draft
  {
    var claim := Claim(None, sortOrder);
    var declined := REGISTERED.(status := Declined, sortOrder := Some(sortOrder));
    var approved := declined.(status := Active, activatedAt := Some(2));
    run := [];
    run := ReplayThen(run, map[], Timed(Insert(m), 0), map[m := REGISTERED]);
    run := ReplayThen(run, map[m := REGISTERED], Timed(Finalize(m, claim, None), 1), map[m := declined]);
    run := ReplayThen(run, map[m := declined], Timed(Approve(m), 2), map[m := approved]);
    run := ReplayThen(run, map[m := approved], Timed(SetStatus(m, Declined), 3),
      map[m := approved.(status := Declined)]);
    run := ReplayThen(run, map[m := approved.(status := Declined)], Timed(Release(m, claim), 4),
                map[m := approved.(status := Draft, sortOrder := None)]);
  }

  /** One statement more at the end of a run from the empty table. */
  lemma ReplayThen(run: seq<Timed>, db: Table, t: Timed, after: Table) returns (longer: seq<Timed>)
    requires Replay(map[], run) == db && Exec(db, t.stmt, t.now) == after
    ensures longer == run + [t] && Replay(map[], longer) == after
  {
    longer := run + [t];
    assert longer[..|longer| - 1] == run;
  }
}
