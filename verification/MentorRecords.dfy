/** The guarded writes of the mentors table as repository methods, and the services
    that read first and write later. Each write is the one statement of Lifecycle; what
    others commit between a service's read and its write is a parameter. */
module MentorRecords {
  import opened Prelude
  import opened Lifecycle
  import Confirmations
  import LoginLinks

  predicate Matches(db: Table, stmt: Stmt, now: int) {
    exists m :: m in db && Applies(db, stmt, m, now)
  }

  /** An UPDATE by primary key touches that row or none. */
  lemma ByKey(db: Table, stmt: Stmt, now: int, m: Id)
    requires !stmt.Insert? && !stmt.Purge?
    requires forall n, row :: Where(stmt, n, row, now) ==> n == m
    ensures Matches(db, stmt, now) <==> Applies(db, stmt, m, now)
    ensures Exec(db, stmt, now) == if Applies(db, stmt, m, now) then db[m := Set(stmt, db[m], now)] else db
  {
    if Matches(db, stmt, now) {
      var n :| n in db && Applies(db, stmt, n, now);
      assert n == m;
    }
  }

  /** What every API write keeps, whoever calls it on however old a read. */
  ghost predicate Keeps(before: Table, after: Table) {
    && (DeletedAreHidden(before) ==> DeletedAreHidden(after))
    && (NeverDraftAgain(before) ==> NeverDraftAgain(after))
  }

  lemma WritesKeep(db: Table, stmt: Stmt, now: int)
    requires !stmt.Release?
    ensures Keeps(db, Exec(db, stmt, now))
  {
  }

  /** No login link opens the mentor's row. */
  ghost predicate NoLinkOpens(db: Table, m: Id) {
    forall link, t :: !Applies(db, ConsumeLogin(link), m, t)
  }

  /** No session of the mentor carrying a version up to `version` passes a live check. */
  ghost predicate LoggedOut(db: Table, m: Id, version: nat) {
    forall x: LoginLinks.Session :: x.mentor == m && 1 <= x.version <= version ==> !LoginLinks.Passes(db, x)
  }

  /** No moderation write can make the mentor a draft. */
  ghost predicate OutOfModeratorsReach(db: Table, m: Id) {
    forall t :: !Matches(db, ReturnToDraft(m), t) && !Matches(db, SetStatus(m, Draft), t)
  }

  /** Deleting a profile and restoring it leaves it hidden, with every earlier link and
      session dead and its activation stamp as it was. */
  lemma RestoredIsLoggedOut(db: Table, m: Id, now: int, later: int)
    requires m in db && db[m].deletedAt.None?
    ensures DeletedSince(Exec(db, SoftDelete(m), now), m, now)
    ensures var back := Exec(Exec(db, SoftDelete(m), now), Restore(m), later);
            && m in back && back[m].status == Inactive && back[m].deletedAt.None?
            && back[m].activatedAt == db[m].activatedAt
            && NoLinkOpens(back, m) && LoggedOut(back, m, db[m].version)
  {
    DeletionDeletes(db, m, now);
  }

  /** Approval is for good: it activates, the first stamp stays, approving again changes
      nothing, and no moderation write can draft the mentor. */
  lemma ApprovalIsFinal(db: Table, m: Id, now: int)
    requires Applies(db, Approve(m), m, now)
    ensures var after := Exec(db, Approve(m), now);
            && m in after && after[m].status == Active && OutOfModeratorsReach(after, m)
            && after[m].activatedAt == (if db[m].activatedAt.Some? then db[m].activatedAt else Some(now))
            && forall t :: Exec(after, Approve(m), t) == after
  {
    var after := Exec(db, Approve(m), now);
    forall t ensures Exec(after, Approve(m), t) == after {
      ByKey(after, Approve(m), t, m);
    }
  }

  /** A claim is exclusive: nobody who read what the claimer read can claim the row after
      it, and nobody at all while the window it opened lasts; an old login link is dead. */
  lemma ClaimIsExclusive(db: Table, m: Id, claim: Claim, expected: Option<Token>, now: int)
    requires Applies(db, Finalize(m, claim, expected), m, now)
    requires claim.secret.Some? ==> TokenOf(claim.secret) != expected
    ensures var after := Exec(db, Finalize(m, claim, expected), now);
            && (forall c, t :: !Matches(after, Finalize(m, c, expected), t))
            && (claim.secret.Some? ==>
                  forall c, e, t :: t < claim.secret.value.expires ==> !Matches(after, Finalize(m, c, e), t))
            && NoLinkOpens(after, m)
  {
    assert m in Exec(db, Finalize(m, claim, expected), now);
  }

  /** A claim and its release: the row is a draft without token, sort order or login link,
      so the next pass claims it again. */
  lemma ReleaseUndoesTheClaim(db: Table, m: Id, claim: Claim, expected: Option<Token>, now: int, later: int)
    requires Applies(db, Finalize(m, claim, expected), m, now)
    ensures var back := Exec(Exec(db, Finalize(m, claim, expected), now), Release(m, claim), later);
            && back == db[m := db[m].(login := None, sortOrder := None, confirmation := None)]
            && forall c, t :: Matches(back, Finalize(m, c, None), t)
  {
    var claimed := Exec(db, Finalize(m, claim, expected), now);
    var back := Exec(claimed, Release(m, claim), later);
    assert claimed == db[m := Set(Finalize(m, claim, expected), db[m], now)];
    assert back == db[m := db[m].(login := None, sortOrder := None, confirmation := None)];
    forall c, t ensures Matches(back, Finalize(m, c, None), t) {
      assert m in back && Applies(back, Finalize(m, c, None), m, t);
    }
  }

  predicate Carries(db: Table, m: Id, token: Token) {
    m in db && TokenOf(db[m].confirmation) == Some(token)
  }

  predicate DraftWith(db: Table, m: Id, token: Token) {
    Carries(db, m, token) && db[m].status == Draft
  }

  /** A draft that carries the token in its window. */
  predicate Announces(db: Table, m: Id, token: Token, now: int) {
    DraftWith(db, m, token) && now <= db[m].confirmation.value.expires
  }

  lemma MatchesIffAnnounced(db: Table, token: Token, now: int)
    ensures Matches(db, ConsumeConfirmation(token), now) <==> exists m :: Announces(db, m, token, now)
    ensures forall m :: Announces(db, m, token, now) <==> m in db && Applies(db, ConsumeConfirmation(token), m, now)
  {
    assert forall m :: Announces(db, m, token, now) <==> m in db && Applies(db, ConsumeConfirmation(token), m, now);
  }

  lemma MatchesIffDraft(db: Table, token: Token, secret: Secret, now: int)
    ensures Matches(db, Rotate(token, secret), now) <==> exists m :: DraftWith(db, m, token)
    ensures forall m :: DraftWith(db, m, token) <==> m in db && Applies(db, Rotate(token, secret), m, now)
  {
    assert forall m :: DraftWith(db, m, token) <==> m in db && Applies(db, Rotate(token, secret), m, now);
  }

  class MentorRepository {
    var rows: Table

    method SetMentorStatus(m: Id, status: Status, now: int) returns (applied: bool)
      modifies this
      ensures applied <==> Matches(old(rows), SetStatus(m, status), now)
      ensures applied <==> m in old(rows) && old(rows)[m].deletedAt.None?
                           && !(status == Draft && old(rows)[m].activatedAt.Some?)
      ensures rows == if applied then old(rows)[m := old(rows)[m].(status := status)] else old(rows)
      ensures rows == Exec(old(rows), SetStatus(m, status), now)
      ensures Keeps(old(rows), rows)
    {
      ByKey(rows, SetStatus(m, status), now, m);
      WritesKeep(rows, SetStatus(m, status), now);
      if m !in rows || rows[m].deletedAt.Some? || (status == Draft && rows[m].activatedAt.Some?) { return false; }
      rows := rows[m := rows[m].(status := status)];
      return true;
    }

    method ApproveMentorModeration(m: Id, now: int) returns (applied: bool)
      modifies this
      ensures applied <==> Matches(old(rows), Approve(m), now)
      ensures applied <==> m in old(rows) && old(rows)[m].deletedAt.None?
      ensures applied ==>
                && m in rows && rows[m].status == Active
                && rows[m].activatedAt == if old(rows)[m].activatedAt.Some? then old(rows)[m].activatedAt else Some(now)
      ensures rows == Exec(old(rows), Approve(m), now)
      ensures Keeps(old(rows), rows)
      ensures applied ==> OutOfModeratorsReach(rows, m) && forall t :: Exec(rows, Approve(m), t) == rows
    {
      ByKey(rows, Approve(m), now, m);
      WritesKeep(rows, Approve(m), now);
      if m !in rows || rows[m].deletedAt.Some? { return false; }
      rows := rows[m := rows[m].(status := Active)];
      if rows[m].activatedAt.None? { rows := rows[m := rows[m].(activatedAt := Some(now))]; }
      return true;
    }

    method ReturnMentorToDraft(m: Id, now: int) returns (applied: bool)
      modifies this
      ensures applied <==> Matches(old(rows), ReturnToDraft(m), now)
      ensures applied <==> m in old(rows) && old(rows)[m].deletedAt.None? && old(rows)[m].activatedAt.None?
      ensures rows == if applied then old(rows)[m := old(rows)[m].(status := Draft)] else old(rows)
      ensures rows == Exec(old(rows), ReturnToDraft(m), now)
      ensures Keeps(old(rows), rows)
    {
      ByKey(rows, ReturnToDraft(m), now, m);
      WritesKeep(rows, ReturnToDraft(m), now);
      if m !in rows || rows[m].activatedAt.Some? || rows[m].deletedAt.Some? { return false; }
      rows := rows[m := rows[m].(status := Draft)];
      return true;
    }

    method SetLoginToken(m: Id, secret: Secret, now: int)
      modifies this
      ensures rows == Exec(old(rows), SetLogin(m, secret), now)
      ensures rows == if m in old(rows) then old(rows)[m := old(rows)[m].(login := Some(secret))] else old(rows)
      ensures Keeps(old(rows), rows)
      ensures m in old(rows) && old(rows)[m].deletedAt.None? ==>
                forall t :: t <= secret.expires ==> Matches(rows, ConsumeLogin(secret.token), t)
    {
      ByKey(rows, SetLogin(m, secret), now, m);
      WritesKeep(rows, SetLogin(m, secret), now);
      if m in rows {
        rows := rows[m := rows[m].(login := Some(secret))];
        forall t | rows[m].deletedAt.None? && t <= secret.expires ensures Matches(rows, ConsumeLogin(secret.token), t) {
          assert m in rows && Applies(rows, ConsumeLogin(secret.token), m, t);
        }
      }
    }

    /** The row the link belonged to, with the version its session will carry. */
    method ConsumeLoginToken(link: Token, now: int) returns (r: Option<(Id, Status, nat)>)
      modifies this
      ensures r.Some? <==> Matches(old(rows), ConsumeLogin(link), now)
      ensures r.Some? ==> Applies(old(rows), ConsumeLogin(link), r.value.0, now)
                          && r.value.1 == old(rows)[r.value.0].status && r.value.2 == old(rows)[r.value.0].version
      ensures rows == Exec(old(rows), ConsumeLogin(link), now)
      ensures forall m :: m in old(rows) ==>
                var row := old(rows)[m];
                Applies(old(rows), ConsumeLogin(link), m, now) <==>
                  && row.login.Some? && row.login.value.token == link
                  && now <= row.login.value.expires && row.deletedAt.None?
    {
      ghost var before := rows;
      r := None;
      var todo := rows.Keys;
      while todo != {}
        invariant todo <= rows.Keys == before.Keys
        invariant forall m :: m in before ==>
          rows[m] == if m !in todo && Applies(before, ConsumeLogin(link), m, now)
                     then before[m].(login := None) else before[m]
        invariant r.Some? <==> exists m :: m in before.Keys - todo && Applies(before, ConsumeLogin(link), m, now)
        invariant r.Some? ==> Applies(before, ConsumeLogin(link), r.value.0, now)
                              && r.value.1 == before[r.value.0].status && r.value.2 == before[r.value.0].version
        decreases todo
      {
        var m :| m in todo;
        var row := rows[m];
        if row.login.Some? && row.login.value.token == link && row.login.value.expires >= now && row.deletedAt.None? {
          assert Applies(before, ConsumeLogin(link), m, now);
          rows := rows[m := row.(login := None)];
          r := Some((m, row.status, row.version));
        }
        todo := todo - {m};
      }
    }

    method BumpMentorSessionVersion(m: Id, now: int) returns (applied: bool)
      modifies this
      ensures applied <==> Matches(old(rows), Bump(m), now)
      ensures applied <==> m in old(rows)
      ensures rows == if applied then old(rows)[m := old(rows)[m].(version := old(rows)[m].version + 1)] else old(rows)
      ensures rows == Exec(old(rows), Bump(m), now)
      ensures Keeps(old(rows), rows)
      ensures applied ==> LoggedOut(rows, m, old(rows)[m].version)
    {
      ByKey(rows, Bump(m), now, m);
      WritesKeep(rows, Bump(m), now);
      if m !in rows { return false; }
      rows := rows[m := rows[m].(version := rows[m].version + 1)];
      return true;
    }

    method SoftDeleteMentor(m: Id, now: int) returns (applied: bool)
      modifies this
      ensures applied <==> Matches(old(rows), SoftDelete(m), now)
      ensures rows == Exec(old(rows), SoftDelete(m), now)
      ensures Keeps(old(rows), rows)
      ensures applied <==> m in old(rows) && old(rows)[m].deletedAt.None?
      ensures applied ==> DeletedSince(rows, m, now)
      ensures applied ==> NoLinkOpens(rows, m) && LoggedOut(rows, m, old(rows)[m].version)
    {
      ByKey(rows, SoftDelete(m), now, m);
      WritesKeep(rows, SoftDelete(m), now);
      if m !in rows || rows[m].deletedAt.Some? { return false; }
      rows := rows[m := rows[m].(deletedAt := Some(now), status := Inactive, login := None,
                                 version := rows[m].version + 1)];
      DeletionDeletes(old(rows), m, now);
      return true;
    }

    method RestoreMentor(m: Id, now: int) returns (applied: bool)
      modifies this
      ensures applied <==> Matches(old(rows), Restore(m), now)
      ensures applied <==> m in old(rows) && old(rows)[m].deletedAt.Some?
      ensures rows == if applied then old(rows)[m := old(rows)[m].(deletedAt := None, status := Inactive)]
                      else old(rows)
      ensures rows == Exec(old(rows), Restore(m), now)
      ensures Keeps(old(rows), rows)
      ensures applied ==> forall version: nat :: version < old(rows)[m].version ==> LoggedOut(rows, m, version)
    {
      ByKey(rows, Restore(m), now, m);
      WritesKeep(rows, Restore(m), now);
      if m !in rows || rows[m].deletedAt.None? { return false; }
      rows := rows[m := rows[m].(deletedAt := None, status := Inactive)];
      return true;
    }

    /** Overlapping passes over one list deactivate, and mail, each mentor once. */
    method DeactivateMentor(m: Id, now: int) returns (applied: bool)
      modifies this
      ensures applied <==> Matches(old(rows), Deactivate(m), now)
      ensures applied <==> m in old(rows) && old(rows)[m].status == Active
      ensures rows == if applied then old(rows)[m := old(rows)[m].(status := Inactive)] else old(rows)
      ensures rows == Exec(old(rows), Deactivate(m), now)
      ensures !Matches(rows, Deactivate(m), now)
    {
      ByKey(rows, Deactivate(m), now, m);
      if m !in rows || rows[m].status != Active { return false; }
      rows := rows[m := rows[m].(status := Inactive)];
      return true;
    }

    /** What a live request is checked against; None when there is no such mentor. */
    method MentorSessionState(m: Id) returns (r: Option<(Option<Status>, nat)>)
      ensures r.Some? <==> m in rows
      ensures r.Some? ==> r.value.1 == rows[m].version
                          && r.value.0 == if rows[m].deletedAt.Some? then None else Some(rows[m].status)
    {
      if m !in rows { return None; }
      return Some((if rows[m].deletedAt.Some? then None else Some(rows[m].status), rows[m].version));
    }

    method GetByConfirmationToken(token: Token) returns (m: Option<Id>)
      ensures m.Some? ==> m.value in rows && TokenOf(rows[m.value].confirmation) == Some(token)
      ensures m.None? ==> forall n :: n in rows ==> TokenOf(rows[n].confirmation) != Some(token)
    {
      if n :| n in rows && TokenOf(rows[n].confirmation) == Some(token) {
        m := Some(n);
      } else {
        m := None;
      }
    }

    method ConsumeConfirmationToken(token: Token, now: int) returns (applied: bool)
      modifies this
      ensures applied <==> Matches(old(rows), ConsumeConfirmation(token), now)
      ensures applied <==> exists m :: Announces(old(rows), m, token, now)
      ensures rows.Keys == old(rows).Keys
      ensures forall m :: m in rows ==>
                rows[m] == if Announces(old(rows), m, token, now)
                           then old(rows)[m].(status := Status.Pending, confirmation := None) else old(rows)[m]
      ensures rows == Exec(old(rows), ConsumeConfirmation(token), now)
    {
      ghost var before := rows;
      MatchesIffAnnounced(rows, token, now);
      applied := false;
      var todo := rows.Keys;
      while todo != {}
        invariant todo <= rows.Keys == before.Keys
        invariant forall m :: m in before ==>
          rows[m] == if m !in todo && Applies(before, ConsumeConfirmation(token), m, now)
                     then before[m].(status := Status.Pending, confirmation := None) else before[m]
        invariant applied <==>
          exists m :: m in before.Keys - todo && Applies(before, ConsumeConfirmation(token), m, now)
        decreases todo
      {
        var m :| m in todo;
        var row := rows[m];
        if row.confirmation.Some? && row.confirmation.value.token == token && row.status == Draft
           && row.confirmation.value.expires >= now {
          assert Applies(before, ConsumeConfirmation(token), m, now);
          rows := rows[m := row.(status := Status.Pending, confirmation := None)];
          applied := true;
        }
        todo := todo - {m};
      }
    }

    method RotateConfirmationToken(token: Token, secret: Secret, now: int) returns (applied: bool)
      modifies this
      ensures applied <==> Matches(old(rows), Rotate(token, secret), now)
      ensures applied <==> exists m :: DraftWith(old(rows), m, token)
      ensures rows.Keys == old(rows).Keys
      ensures forall m :: m in rows ==>
                rows[m] == if DraftWith(old(rows), m, token)
                           then old(rows)[m].(confirmation := Some(secret)) else old(rows)[m]
      ensures rows == Exec(old(rows), Rotate(token, secret), now)
    {
      ghost var before := rows;
      MatchesIffDraft(rows, token, secret, now);
      applied := false;
      var todo := rows.Keys;
      while todo != {}
        invariant todo <= rows.Keys == before.Keys
        invariant forall m :: m in before ==>
          rows[m] == if m !in todo && Applies(before, Rotate(token, secret), m, now)
                     then before[m].(confirmation := Some(secret)) else before[m]
        invariant applied <==> exists m :: m in before.Keys - todo && Applies(before, Rotate(token, secret), m, now)
        decreases todo
      {
        var m :| m in todo;
        var row := rows[m];
        if row.confirmation.Some? && row.confirmation.value.token == token && row.status == Draft {
          assert Applies(before, Rotate(token, secret), m, now);
          rows := rows[m := row.(confirmation := Some(secret))];
          applied := true;
        }
        todo := todo - {m};
      }
    }

    method FinalizeNewMentor(m: Id, claim: Claim, expected: Option<Token>, now: int) returns (applied: bool)
      modifies this
      ensures applied <==> Matches(old(rows), Finalize(m, claim, expected), now)
      ensures applied <==> && m in old(rows) && old(rows)[m].status == Draft
                           && TokenOf(old(rows)[m].confirmation) == expected
                           && (expected.Some? ==> old(rows)[m].confirmation.value.expires <= now)
      ensures applied ==> rows == old(rows)[m := old(rows)[m].(login := None, confirmation := claim.secret,
                                                              status := if claim.secret.Some? then Draft else Declined,
                                                              sortOrder := Some(claim.sortOrder))]
      ensures rows == Exec(old(rows), Finalize(m, claim, expected), now)
      ensures Keeps(old(rows), rows)
      ensures applied && (claim.secret.Some? ==> TokenOf(claim.secret) != expected) ==>
                forall c, t :: !Matches(rows, Finalize(m, c, expected), t)
      ensures applied && claim.secret.Some? ==>
                forall c, e, t :: t < claim.secret.value.expires ==> !Matches(rows, Finalize(m, c, e), t)
    {
      ByKey(rows, Finalize(m, claim, expected), now, m);
      WritesKeep(rows, Finalize(m, claim, expected), now);
      if m !in rows || rows[m].status != Draft || TokenOf(rows[m].confirmation) != expected { return false; }
      if rows[m].confirmation.Some? && rows[m].confirmation.value.expires > now { return false; }
      rows := rows[m := rows[m].(login := None, status := ClaimStatus(claim), sortOrder := Some(claim.sortOrder),
                                 confirmation := claim.secret)];
      return true;
    }

    method ReleaseNewMentorFinalization(m: Id, claim: Claim, now: int)
      modifies this
      ensures rows == Exec(old(rows), Release(m, claim), now)
      ensures rows == if && m in old(rows)
                         && old(rows)[m].status == (if claim.secret.Some? then Draft else Declined)
                         && old(rows)[m].sortOrder == Some(claim.sortOrder)
                         && TokenOf(old(rows)[m].confirmation) == TokenOf(claim.secret)
                      then old(rows)[m := old(rows)[m].(status := Draft, sortOrder := None, confirmation := None)]
                      else old(rows)
      ensures Applies(old(rows), Release(m, claim), m, now) ==> forall c, t :: Matches(rows, Finalize(m, c, None), t)
    {
      ByKey(rows, Release(m, claim), now, m);
      if m in rows && rows[m].status == ClaimStatus(claim) && rows[m].sortOrder == Some(claim.sortOrder)
         && TokenOf(rows[m].confirmation) == TokenOf(claim.secret) {
        rows := rows[m := rows[m].(status := Draft, sortOrder := None, confirmation := None)];
        forall c, t ensures Matches(rows, Finalize(m, c, None), t) {
          assert m in rows && Applies(rows, Finalize(m, c, None), m, t);
        }
      }
    }
  }

  /** mentorSessionStillValid is the live check of LoginLinks. */
  method MentorSessionStillValid(repo: MentorRepository, session: LoginLinks.Session) returns (ok: bool)
    ensures ok == LoginLinks.Passes(repo.rows, session)
  {
    var state := repo.MentorSessionState(session.mentor);
    if state.None? { return false; }
    if state.value.0.None? || !LoginLinks.MayHoldMentorSession(state.value.0.value) { return false; }
    return LoginLinks.SessionVersionCurrent(session.version, state.value.1);
  }

  class MentorAuthService {
    const repo: MentorRepository
    var minted: seq<LoginLinks.Session>

    constructor (repo: MentorRepository)
      ensures this.repo == repo && minted == []
    {
      this.repo := repo;
      minted := [];
    }

    /** The link is spent first; a session is signed only from the row it opened, with
        that row's version, and an ineligible account's link stays spent. */
    method VerifyLogin(link: Token, now: int) returns (r: Option<LoginLinks.Session>)
      modifies this`minted, repo
      ensures repo.rows == Exec(old(repo.rows), ConsumeLogin(link), now)
      ensures r.Some? ==>
                && Applies(old(repo.rows), ConsumeLogin(link), r.value.mentor, now)
                && LoginLinks.MayHoldMentorSession(old(repo.rows)[r.value.mentor].status)
                && r.value == LoginLinks.Session(r.value.mentor, old(repo.rows)[r.value.mentor].version, link)
      ensures r.None? ==> forall m :: Applies(old(repo.rows), ConsumeLogin(link), m, now) ==>
                exists n :: Applies(old(repo.rows), ConsumeLogin(link), n, now)
                            && !LoginLinks.MayHoldMentorSession(old(repo.rows)[n].status)
      ensures minted == old(minted) + if r.Some? then [r.value] else []
    {
      var consumed := repo.ConsumeLoginToken(link, now);
      if consumed.None? { return None; }
      var (m, status, version) := consumed.value;
      if !LoginLinks.MayHoldMentorSession(status) { return None; }
      r := Some(LoginLinks.Session(m, version, link));
      minted := minted + [r.value];
    }

    /** Logging out ends every session of the mentor behind the cookie. */
    method RevokeSession(session: LoginLinks.Session, now: int)
      modifies repo
      ensures repo.rows == Exec(old(repo.rows), Bump(session.mentor), now)
      ensures 1 <= session.version && session.mentor in old(repo.rows) ==>
                session.version <= old(repo.rows)[session.mentor].version ==> !LoginLinks.Passes(repo.rows, session)
    {
      var applied := repo.BumpMentorSessionVersion(session.mentor, now);
    }
  }

  // ---- Services ------------------------------------------------------------------------

  datatype Confirm = Confirmed | Already | Expired | Invalid
  datatype Resend = Resent | NoLongerDraft | Limited | Superseded
  datatype Finalized = Finished | Skipped | SendFailed | NoSuchMentor

  /** A token generated once: at most one row carries it, and nothing stores it again. */
  ghost predicate Single(db: Table, meanwhile: seq<Timed>, token: Token) {
    && (forall m, n :: Carries(db, m, token) && Carries(db, n, token) ==> m == n)
    && (forall i :: 0 <= i < |meanwhile| ==> token !in Confirmations.Minted(meanwhile[i].stmt))
  }

  lemma {:induction false} CarriersOnlyLeave(db: Table, meanwhile: seq<Timed>, token: Token, m: Id)
    requires forall i :: 0 <= i < |meanwhile| ==> token !in Confirmations.Minted(meanwhile[i].stmt)
    requires Carries(Replay(db, meanwhile), m, token)
    ensures Carries(db, m, token)
  {
    if meanwhile != [] {
      var k := |meanwhile| - 1;
      Confirmations.ExecHolds(Replay(db, meanwhile[..k]), meanwhile[k].stmt, meanwhile[k].now, m, token);
      CarriersOnlyLeave(db, meanwhile[..k], token, m);
    }
  }

  /** The row a single token was read from is the row its confirmation moves. */
  lemma TheRowReadIsTheRowMoved(db: Table, meanwhile: seq<Timed>, token: Token, m: Id, later: int)
    requires Single(db, meanwhile, token) && Carries(db, m, token)
    requires Matches(Replay(db, meanwhile), ConsumeConfirmation(token), later)
    ensures Moves(Replay(db, meanwhile), Exec(Replay(db, meanwhile), ConsumeConfirmation(token), later), m)
  {
    var atWrite := Replay(db, meanwhile);
    forall n | n in atWrite && Applies(atWrite, ConsumeConfirmation(token), n, later) ensures n == m {
      CarriersOnlyLeave(db, meanwhile, token, n);
    }
    var n :| n in atWrite && Applies(atWrite, ConsumeConfirmation(token), n, later);
    assert Exec(atWrite, ConsumeConfirmation(token), later)
        == atWrite[m := atWrite[m].(status := Status.Pending, confirmation := None)];
  }

  /** Mentor m goes from draft to pending and nobody else changes. */
  predicate Moves(before: Table, after: Table, m: Id) {
    m in before && before[m].status == Draft
    && after == before[m := before[m].(status := Status.Pending, confirmation := None)]
  }

  class ConfirmationService {
    const repo: MentorRepository
    var announced: seq<Id>
    var mailed: seq<Token>

    constructor (repo: MentorRepository)
      ensures this.repo == repo && announced == [] && mailed == []
    {
      this.repo := repo;
      announced, mailed := [], [];
    }

    /** Read, classify, then compare-and-set; `meanwhile` commits in between. The worker
        is told once per confirmation that applied and never otherwise, and of the
        very mentor the confirmation moved. */
    method ConfirmEmail(token: Token, now: int, meanwhile: seq<Timed>, later: int) returns (r: Confirm)
      modifies this`announced, repo
      ensures r == Invalid <==> forall m :: !Carries(old(repo.rows), m, token)
      ensures r != Invalid ==>
                exists m ::
                  var found, atWrite := old(repo.rows), Replay(old(repo.rows), meanwhile);
                  && Carries(found, m, token)
                  && (r == Confirmed <==>
                        Announces(found, m, token, now) && exists n :: Announces(atWrite, n, token, later))
                  && (r == Expired <==> DraftWith(found, m, token) && !Announces(found, m, token, now))
      ensures repo.rows == if r == Confirmed
                then Exec(Replay(old(repo.rows), meanwhile), ConsumeConfirmation(token), later)
                           else Replay(old(repo.rows), meanwhile)
      ensures r != Confirmed ==> announced == old(announced)
      ensures r == Confirmed ==>
                exists m :: Announces(old(repo.rows), m, token, now) && announced == old(announced) + [m]
                  && (Single(old(repo.rows), meanwhile, token) ==>
                        Moves(Replay(old(repo.rows), meanwhile), repo.rows, m))
    {
      var found := repo.GetByConfirmationToken(token);
      if found.None? {
        repo.rows := Replay(repo.rows, meanwhile);
        return Invalid;
      }
      assert Carries(repo.rows, found.value, token);
      var mentor := repo.rows[found.value];
      repo.rows := Replay(repo.rows, meanwhile);
      if mentor.status != Draft { return Already; }
      if now > mentor.confirmation.value.expires { return Expired; }
      var applied := repo.ConsumeConfirmationToken(token, later);
      if !applied {
        NoMatchNoChange(repo.rows, ConsumeConfirmation(token), later);
        return Already;
      }
      if Single(old(repo.rows), meanwhile, token) {
        TheRowReadIsTheRowMoved(old(repo.rows), meanwhile, token, found.value, later);
      }
      assert Announces(old(repo.rows), found.value, token, now);
      announced := announced + [found.value];
      return Confirmed;
    }

    /** A fresh token is mailed exactly when the compare-and-set stored it. `allowed` is
        the limiter's answer. */
    method ResendConfirmation(token: Token, allowed: bool, secret: Secret, meanwhile: seq<Timed>, later: int)
      returns (r: Option<Resend>)
      modifies this`mailed, repo
      ensures r.None? <==> forall m :: !Carries(old(repo.rows), m, token)
      ensures r.Some? ==>
                exists m ::
                  var found, atWrite := old(repo.rows), Replay(old(repo.rows), meanwhile);
                  && Carries(found, m, token)
                  && (r.value == NoLongerDraft <==> found[m].status != Draft)
                  && (r.value == Limited <==> DraftWith(found, m, token) && !allowed)
                  && (r.value == Resent <==>
                        DraftWith(found, m, token) && allowed && exists n :: DraftWith(atWrite, n, token))
      ensures repo.rows == if r == Some(Resent)
                then Exec(Replay(old(repo.rows), meanwhile), Rotate(token, secret), later)
                           else Replay(old(repo.rows), meanwhile)
      ensures mailed == if r == Some(Resent) then old(mailed) + [secret.token] else old(mailed)
      ensures r == Some(Resent) ==> allowed && exists m :: Carries(repo.rows, m, secret.token)
    {
      var found := repo.GetByConfirmationToken(token);
      if found.None? {
        repo.rows := Replay(repo.rows, meanwhile);
        return None;
      }
      assert Carries(repo.rows, found.value, token);
      var mentor := repo.rows[found.value];
      repo.rows := Replay(repo.rows, meanwhile);
      if mentor.status != Draft { return Some(NoLongerDraft); }
      if !allowed { return Some(Limited); }
      label write:
      var applied := repo.RotateConfirmationToken(token, secret, later);
      if !applied {
        NoMatchNoChange(repo.rows, Rotate(token, secret), later);
        return Some(Superseded);
      }
      ghost var m :| m in old@write(repo.rows) && Applies(old@write(repo.rows), Rotate(token, secret), m, later);
      assert Carries(repo.rows, m, secret.token);
      mailed := mailed + [secret.token];
      return Some(Resent);
    }

    /** The registration job: claim the row, mail only what the claim stored, and hand
        the row back if the mail fails. `secret` is generated for non-duplicates. */
    method FinalizeNewMentor(m: Id, duplicates: nat, secret: Secret, sortOrder: int, meanwhile: seq<Timed>, later: int,
                             sent: bool, sending: seq<Timed>, after: int)
      returns (r: Finalized)
      modifies this`mailed, repo
      ensures var claim := Claim(if duplicates > 0 then None else Some(secret), sortOrder);
              var found := old(repo.rows);
              var atClaim := Replay(found, meanwhile);
              && (r == NoSuchMentor <==> m !in found)
              && (m in found ==>
                    var stmt := Finalize(m, claim, TokenOf(found[m].confirmation));
                    && (r == Skipped <==> !Applies(atClaim, stmt, m, later))
                    && (r == Finished ==> sent && repo.rows == Replay(Exec(atClaim, stmt, later), sending))
                    && (r == SendFailed ==> !sent)
                    && (r == SendFailed ==>
                          repo.rows == Exec(Replay(Exec(atClaim, stmt, later), sending), Release(m, claim), after)))
              && (r == Skipped ==> repo.rows == atClaim)
              && mailed == if r == Finished && claim.secret.Some? then old(mailed) + [secret.token] else old(mailed)
    {
      if m !in repo.rows { return NoSuchMentor; }
      var expected := TokenOf(repo.rows[m].confirmation);
      var claim := Claim(if duplicates > 0 then None else Some(secret), sortOrder);
      repo.rows := Replay(repo.rows, meanwhile);
      ByKey(repo.rows, Finalize(m, claim, expected), later, m);
      var applied := repo.FinalizeNewMentor(m, claim, expected, later);
      if !applied { return Skipped; }
      repo.rows := Replay(repo.rows, sending);
      if !sent {
        repo.ReleaseNewMentorFinalization(m, claim, after);
        return SendFailed;
      }
      if claim.secret.Some? { mailed := mailed + [secret.token]; }
      return Finished;
    }
  }

  lemma NoMatchNoChange(db: Table, stmt: Stmt, now: int)
    requires !stmt.Insert? && !stmt.Purge? && !Matches(db, stmt, now)
    ensures Exec(db, stmt, now) == db
  {
    forall m | m in db ensures !Applies(db, stmt, m, now) {}
  }
}
