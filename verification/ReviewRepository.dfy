/** The review and deletion methods, each on its own: one answer and one operation of
    Reviews, or nothing. */
module ReviewRepository {
  import opened Prelude
  import opened Reviews

  const TOKEN_HASH_LEN := 64

  datatype Outcome = Stored(review: Id, mentor: Id) | TokenInvalid | Ineligible

  datatype Check = Unknown | Known(mentor: Id, canSubmit: bool)

  datatype Removal = Removed(invitationsRevoked: nat) | AlreadyDeleted | Gone

  /** The answer to a submission for a request, the capability being good. */
  function Judged(db: Tables, request: Id, legacy: bool, review: Id): Outcome {
    if !Visible(db, request, legacy) then TokenInvalid
    else if Eligible(db, request, legacy) then Stored(review, db.requests[request].mentor)
    else Ineligible
  }

  function Answer(db: Tables, h: Hash, review: Id, now: int): Outcome {
    if Live(db, h, now) then Judged(db, db.invitations[h].request, false, review) else TokenInvalid
  }

  /** Nothing is spent unless a review is stored. */
  lemma StoredOrUntouched(db: Tables, h: Hash, content: string, review: Id, now: int)
    requires WellKept(db) && review !in db.reviews
    ensures Answer(db, h, review, now).Stored? <==> Live(db, h, now) && Eligible(db, db.invitations[h].request, false)
    ensures Answer(db, h, review, now).Stored? ==>
              var op := Submit(review, db.invitations[h].request, content, Some(h));
              Allowed(db, op) && WellKept(Apply(db, op))
              && forall again :: Answer(Apply(db, op), h, again, now) == TokenInvalid
  {
    if Answer(db, h, review, now).Stored? {
      OpKeepsWellKept(db, Submit(review, db.invitations[h].request, content, Some(h)));
    }
  }

  /** The whole answer to a token, clause by clause: a review is stored exactly for an
      unspent, unexpired invitation to a request that is done and unreviewed, of a mentor
      who exists and is not deleted; the token is called ineligible, not invalid, when
      only the request's state stands in the way. */
  lemma StoredIffDoneAndUnreviewed(db: Tables, h: Hash, review: Id, now: int)
    ensures var answer := Answer(db, h, review, now);
            var known := h in db.invitations && !db.invitations[h].consumed && !db.invitations[h].revoked
                         && now < db.invitations[h].expires
                         && var q := db.invitations[h].request;
                            && q in db.requests
                            && db.requests[q].mentor in db.mentors && !db.mentors[db.requests[q].mentor];
            && (answer.TokenInvalid? <==> !known)
            && (answer.Stored? <==> known && var q := db.invitations[h].request;
                  db.requests[q].status == "done" && forall r :: r in db.reviews ==> db.reviews[r].request != q)
            && (answer.Stored? ==> answer == Stored(review, db.requests[db.invitations[h].request].mentor))
  {
  }

  /** The same for the link that is the request's id: it is good until revoked. */
  lemma LegacyStoredIffDoneAndUnreviewed(db: Tables, q: Id, review: Id)
    ensures var answer := Judged(db, q, true, review);
            var known := q in db.requests && !db.requests[q].legacyRevoked
                         && db.requests[q].mentor in db.mentors && !db.mentors[db.requests[q].mentor];
            && (answer.TokenInvalid? <==> !known)
            && (answer.Stored? <==> && known && db.requests[q].status == "done"
                                    && forall r :: r in db.reviews ==> db.reviews[r].request != q)
            && (answer.Stored? ==> answer == Stored(review, db.requests[q].mentor))
  {
  }

  /** Links to other requests. */
  predicate Elsewhere(db: Tables, h: Hash, q: Id) {
    h !in db.invitations || db.invitations[h].request != q
  }

  lemma JudgedApart(a: Tables, b: Tables, q: Id, legacy: bool, review: Id)
    requires (q in a.requests <==> q in b.requests) && (q in a.requests ==> a.requests[q] == b.requests[q])
    requires a.mentors == b.mentors && (Reviewed(a, q) <==> Reviewed(b, q))
    ensures Judged(a, q, legacy, review) == Judged(b, q, legacy, review)
  {
  }

  /** A status opens or closes every link of its request at once: none stores a review
      while it is anything but done; once it is done every unspent link to it does, if it
      has no review and its mentor is there. No other request's links notice. */
  lemma StatusDecides(db: Tables, q: Id, status: string, h: Hash, review: Id, now: int)
    requires Allowed(db, SetStatus(q, status))
    ensures var after := Apply(db, SetStatus(q, status));
            && (Elsewhere(db, h, q) ==> Answer(after, h, review, now) == Answer(db, h, review, now))
            && (!Elsewhere(db, h, q) && status != "done" ==> !Answer(after, h, review, now).Stored?)
            && (status != "done" ==> !Judged(after, q, true, review).Stored?)
            && (!Elsewhere(db, h, q) && status == "done" && Live(db, h, now) && !Reviewed(db, q)
                && db.requests[q].mentor in db.mentors && !db.mentors[db.requests[q].mentor] ==>
                  Answer(after, h, review, now) == Stored(review, db.requests[q].mentor))
  {
    var after := Apply(db, SetStatus(q, status));
    assert forall k :: Reviewed(after, k) <==> Reviewed(db, k);
    if Elsewhere(db, h, q) && h in db.invitations {
      JudgedApart(db, after, db.invitations[h].request, false, review);
    }
  }

  /** Revoking the legacy link of a request kills that link and no token. */
  lemma LegacyRevocationSparesTokens(db: Tables, q: Id, k: Id, h: Hash, review: Id, now: int)
    requires Allowed(db, RevokeLegacy(q))
    ensures var after := Apply(db, RevokeLegacy(q));
            && Judged(after, q, true, review) == TokenInvalid
            && (k != q ==> Judged(after, k, true, review) == Judged(db, k, true, review))
            && Answer(after, h, review, now) == Answer(db, h, review, now)
  {
    var after := Apply(db, RevokeLegacy(q));
    assert forall r :: Reviewed(after, r) <==> Reviewed(db, r);
    if k != q { JudgedApart(db, after, k, true, review); }
    assert h in db.invitations && db.invitations[h].request != q ==>
             after.requests == db.requests[q := after.requests[q]];
  }

  /** A stored review is what was submitted, and the last one: no link to its request, used
      or unused, stores another. Links to other requests answer as before. */
  lemma OneReviewIsAll(db: Tables, q: Id, content: string, via: Option<Hash>, review: Id, h: Hash, next: Id, now: int)
    requires Allowed(db, Submit(review, q, content, via))
    ensures var after := Apply(db, Submit(review, q, content, via));
            && after.reviews == db.reviews[review := Review(q, content)]
            && !Judged(after, q, true, next).Stored?
            && (!Elsewhere(db, h, q) ==> !Answer(after, h, next, now).Stored?)
            && (Elsewhere(db, h, q) && Some(h) != via ==> Answer(after, h, next, now) == Answer(db, h, next, now))
  {
    var after := Apply(db, Submit(review, q, content, via));
    assert review in after.reviews && after.reviews[review].request == q;
    if Elsewhere(db, h, q) && h in db.invitations && Some(h) != via {
      var k := db.invitations[h].request;
      ReviewedElsewhere(db, q, content, via, review, k);
      JudgedApart(db, after, k, false, next);
    }
  }

  lemma ReviewedElsewhere(db: Tables, q: Id, content: string, via: Option<Hash>, review: Id, k: Id)
    requires Allowed(db, Submit(review, q, content, via)) && k != q
    ensures Reviewed(Apply(db, Submit(review, q, content, via)), k) <==> Reviewed(db, k)
  {
    var after := Apply(db, Submit(review, q, content, via));
    if Reviewed(db, k) {
      var r :| r in db.reviews && db.reviews[r].request == k;
      assert r in after.reviews && after.reviews[r].request == k;
    }
  }

  /** A new request is known by its id at once but cannot be reviewed. */
  lemma OpenedRequestWaits(db: Tables, q: Id, m: Id, review: Id)
    requires WellKept(db) && Allowed(db, Open(q, m)) && !db.mentors[m]
    ensures Judged(Apply(db, Open(q, m)), q, true, review) == Ineligible
  {
  }

  /** What minting is worth: the new link, until it expires, gets the answer its request
      deserves; no other link's answer changes. */
  lemma MintedLinkAnswers(db: Tables, h: Hash, request: Id, expires: int, g: Hash, review: Id, now: int)
    requires WellKept(db) && Allowed(db, Mint(h, request, expires))
    ensures Answer(Apply(db, Mint(h, request, expires)), g, review, now) ==
              if g == h then (if now < expires then Judged(db, request, false, review) else TokenInvalid)
              else Answer(db, g, review, now)
  {
    JudgedAlike(db, Apply(db, Mint(h, request, expires)), request, false, review);
    if g in db.invitations {
      JudgedAlike(db, Apply(db, Mint(h, request, expires)), db.invitations[g].request, false, review);
    }
  }

  lemma JudgedAlike(a: Tables, b: Tables, request: Id, legacy: bool, review: Id)
    requires a.requests == b.requests && a.mentors == b.mentors && a.reviews == b.reviews
    ensures Judged(a, request, legacy, review) == Judged(b, request, legacy, review)
  {
    assert Reviewed(a, request) <==> Reviewed(b, request);
  }

  /** Deleting a profile and restoring it: every link mailed for the mentor is dead for
      good, every other link and every legacy link answers as if nothing had happened. */
  lemma DeleteThenRestore(db: Tables, m: Id, review: Id, now: int)
    requires WellKept(db) && m in db.mentors && !db.mentors[m]
    ensures var gone := Apply(db, Delete(m, Outstanding(db, m)));
            Allowed(db, Delete(m, Outstanding(db, m))) && Allowed(gone, Restore(m)) &&
            var back := Apply(gone, Restore(m));
            && back == db.(invitations := back.invitations)
            && (forall h :: Answer(back, h, review, now) ==
                  if h in db.invitations && db.requests[db.invitations[h].request].mentor == m then TokenInvalid
                  else Answer(db, h, review, now))
            && (forall q :: Judged(back, q, true, review) == Judged(db, q, true, review))
            && (forall q :: q in db.requests && db.requests[q].mentor == m ==>
                  Judged(gone, q, true, review) == TokenInvalid)
  {
    var gone := Apply(db, Delete(m, Outstanding(db, m)));
    var back := Apply(gone, Restore(m));
    assert back.mentors == db.mentors;
    forall h
      ensures Answer(back, h, review, now) == if Concerns(db, h, m) then TokenInvalid else Answer(db, h, review, now)
    {
      if h in db.invitations { JudgedAlike(db, back, db.invitations[h].request, false, review); }
    }
    forall q ensures Judged(back, q, true, review) == Judged(db, q, true, review) {
      JudgedAlike(db, back, q, true, review);
    }
  }

  class ReviewRepository {
    var invitations: map<Hash, Invitation>
    var requests: map<Id, Request>
    var mentors: map<Id, bool>
    var reviews: map<Id, Review>

    function Tables(): Tables
      reads this
    {
      Reviews.Tables(invitations, requests, mentors, reviews)
    }

    method CreateReviewInvitation(request: Id, h: Hash, expires: int) returns (ok: bool)
      modifies this
      ensures ok <==> |h| == 64 && h !in old(invitations) && request in old(requests)
      ensures ok ==> Allowed(old(Tables()), Mint(h, request, expires))
      ensures Tables() == if ok then Apply(old(Tables()), Mint(h, request, expires)) else old(Tables())
      ensures ok && WellKept(old(Tables())) ==> forall review, now :: now < expires ==>
                Answer(Tables(), h, review, now) == Judged(old(Tables()), request, false, review)
    {
      if |h| != TOKEN_HASH_LEN { return false; }
      if h in invitations || request !in requests { return false; }
      invitations := invitations[h := Invitation(request, expires, false, false)];
      forall review, now | WellKept(old(Tables())) && now < expires
        ensures Answer(Tables(), h, review, now) == Judged(old(Tables()), request, false, review)
      {
        MintedLinkAnswers(old(Tables()), h, request, expires, h, review, now);
      }
      return true;
    }

    method ReadEligibility(request: Id, legacy: bool) returns (found: bool, canSubmit: bool, mentor: Id)
      ensures found <==> Visible(Tables(), request, legacy)
      ensures found ==> mentor == requests[request].mentor && (canSubmit <==> Eligible(Tables(), request, legacy))
    {
      if request !in requests || requests[request].mentor !in mentors || mentors[requests[request].mentor] {
        return false, false, 0;
      }
      var hasReview := exists r :: r in reviews && reviews[r].request == request;
      found := !(legacy && requests[request].legacyRevoked);
      canSubmit := requests[request].status == "done" && !hasReview;
      mentor := requests[request].mentor;
    }

    /** Looks without spending: a known capability can submit exactly when submitting
        with it, as things stand, would store a review. */
    method CheckCanSubmitReviewByToken(h: Hash, now: int) returns (c: Check)
      ensures c.Unknown? <==> Answer(Tables(), h, 0, now) == TokenInvalid
      ensures c.Known? ==> (c.canSubmit <==> Answer(Tables(), h, 0, now) == Stored(0, c.mentor))
    {
      if h !in invitations || !Unspent(invitations[h]) || invitations[h].expires <= now { return Unknown; }
      var found, canSubmit, mentor := ReadEligibility(invitations[h].request, false);
      return if found then Known(mentor, canSubmit) else Unknown;
    }

    /** Claim and insert in one transaction; a refusal rolls the claim back. */
    method SubmitReviewWithToken(h: Hash, content: string, review: Id, now: int) returns (r: Outcome)
      requires review !in reviews
      modifies this
      ensures r == Answer(old(Tables()), h, review, now)
      ensures !r.Stored? ==> Tables() == old(Tables())
      ensures r.Stored? ==> h in old(invitations)
      ensures r.Stored? ==>
                var op := Submit(review, old(invitations)[h].request, content, Some(h));
                Allowed(old(Tables()), op) && Tables() == Apply(old(Tables()), op)
    {
      if h !in invitations || !Unspent(invitations[h]) || invitations[h].expires <= now { return TokenInvalid; }
      var before := invitations;
      invitations := Consume(invitations, h);
      r := InsertReview(before[h].request, content, false, review);
      if !r.Stored? { invitations := before; }
    }

    method SubmitReviewForRequest(request: Id, content: string, review: Id) returns (r: Outcome)
      requires review !in reviews
      modifies this
      ensures r == Judged(old(Tables()), request, true, review)
      ensures !r.Stored? ==> Tables() == old(Tables())
      ensures r.Stored? ==>
                var op := Submit(review, request, content, None);
                Allowed(old(Tables()), op) && Tables() == Apply(old(Tables()), op)
    {
      r := InsertReview(request, content, true, review);
    }

    method InsertReview(request: Id, content: string, legacy: bool, review: Id) returns (r: Outcome)
      requires review !in reviews
      modifies `reviews
      ensures r == Judged(old(Tables()), request, legacy, review)
      ensures reviews == if r.Stored? then old(reviews)[review := Review(request, content)] else old(reviews)
    {
      var found, canSubmit, mentor := ReadEligibility(request, legacy);
      if !found { return TokenInvalid; }
      if !canSubmit { return Ineligible; }
      reviews := reviews[review := Review(request, content)];
      return Stored(review, mentor);
    }

    method SoftDeleteMentor(m: Id) returns (r: Removal)
      modifies this
      ensures r.Removed? <==> m in old(mentors) && !old(mentors)[m]
      ensures r.Gone? <==> m !in old(mentors)
      ensures !r.Removed? ==> Tables() == old(Tables())
      ensures r.Removed? ==>
                var found := Outstanding(old(Tables()), m);
                r.invitationsRevoked == |found| && Allowed(old(Tables()), Delete(m, found))
                && Tables() == Apply(old(Tables()), Delete(m, found))
    {
      if m !in mentors { return Gone; }
      if mentors[m] { return AlreadyDeleted; }
      var found := Outstanding(Tables(), m);
      mentors := mentors[m := true];
      var todo, count := found, 0;
      while todo != {}
        invariant todo <= found && count + |todo| == |found|
        invariant mentors == old(mentors)[m := true] && requests == old(requests) && reviews == old(reviews)
        invariant invitations == Revoke(old(invitations), found - todo)
        decreases todo
      {
        var h :| h in todo;
        assert h in old(invitations);
        invitations := invitations[h := invitations[h].(revoked := true)];
        todo := todo - {h};
        count := count + 1;
      }
      assert found - todo == found;
      return Removed(count);
    }

    /** Revoked invitations stay revoked. */
    method RestoreMentor(m: Id) returns (ok: bool)
      modifies `mentors
      ensures ok <==> m in old(mentors) && old(mentors)[m]
      ensures ok ==> Allowed(old(Tables()), Restore(m))
      ensures Tables() == if ok then Apply(old(Tables()), Restore(m)) else old(Tables())
      ensures Outstanding(Tables(), m) == Outstanding(old(Tables()), m)
    {
      if m !in mentors || !mentors[m] { return false; }
      mentors := mentors[m := false];
      return true;
    }
  }
}
