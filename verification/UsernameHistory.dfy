/** What a history of commits guarantees: redirects, the cooldown, and the answers
    of the read-only username checks. */
module UsernameHistory {
  import opened Prelude
  import opened Usernames

  // ---- Resolution ---------------------------------------------------------------

  ghost predicate Owns(db: Tables, m: Id, slug: Slug) {
    (m in db.mentors && db.mentors[m].slug == slug) || (slug in db.history && db.history[slug].mentor == m)
  }

  /** A name leads to at most one mentor, and a redirect reaches in one hop a
      mentor whose live name is not itself a redirect. */
  lemma OneOwnerOneHop(db: Tables, slug: Slug, m: Id, n: Id)
    requires WellKept(db) && Owns(db, m, slug)
    ensures Owns(db, n, slug) ==> n == m
    ensures m in db.mentors && Owns(db, m, db.mentors[m].slug) && db.mentors[m].slug !in db.history
    ensures slug in db.history <==> slug != db.mentors[m].slug
  {
    if slug in db.history {
      assert forall k :: k in db.mentors ==> db.mentors[k].slug != slug;
    }
  }

  // ---- The two newest retired names ---------------------------------------------

  ghost function Without(xs: seq<Slug>, x: Slug): (ys: seq<Slug>)
    ensures forall y :: y in ys <==> y in xs && y != x
    ensures x !in xs ==> ys == xs
    ensures Distinct(xs) ==> Distinct(ys)
    ensures Distinct(xs) && x in xs ==> |ys| == |xs| - 1
    ensures Distinct(xs) && |ys| > 0 ==> ys[0] == if xs[0] != x then xs[0] else xs[1]
  {
    if xs == [] then []
    else
      assert xs == [xs[0]] + xs[1..];
      var rest := Without(xs[1..], x);
      assert Distinct(xs) ==> Distinct(xs[1..]) && xs[0] !in rest;
      if xs[0] == x then rest else [xs[0]] + rest
  }

  ghost function Newest(full: seq<Slug>): seq<Slug> {
    if |full| <= 2 then full else full[..2]
  }

  ghost predicate TopTwo(own: map<Slug, Redirect>, full: seq<Slug>) {
    && (forall s :: s in own <==> s in Newest(full))
    && (|full| >= 2 ==> own[full[0]].at > own[full[1]].at)
  }

  /** `full` lists every name the mentor ever retired and does not use now, most
      recently retired first; the redirects are its first two. */
  ghost predicate Tracks(db: Tables, m: Id, full: seq<Slug>) {
    && Distinct(full)
    && (if m in db.mentors then db.mentors[m].slug !in full else full == [])
    && TopTwo(Own(db.history, m), full)
  }

  /** The unbounded list: a rename puts the old name first and takes the reclaimed
      one out; nothing is ever trimmed. */
  ghost function Retired(db: Tables, ops: seq<Op>, m: Id, start: seq<Slug>): seq<Slug>
    requires Legal(db, ops)
  {
    if ops == [] then start
    else
      var k := |ops| - 1;
      var earlier := Retired(db, ops[..k], m, start);
      if ops[k].mentor != m then earlier
      else match ops[k]
        case Rename(_, newSlug, _, _, _, _) => [Replay(db, ops[..k]).mentors[m].slug] + Without(earlier, newSlug)
        case Purge(_) => []
        case _ => earlier
  }

  /** The trim keeps the freshly stamped row and the first of at most two others. */
  lemma TrimKeepsTwo(own: map<Slug, Redirect>, live: Slug, top: seq<Slug>)
    requires live in own && live !in top && |top| <= 2 && Distinct(top)
    requires forall s :: s in own <==> s == live || s in top
    requires forall s :: s in top ==> own[s].at < own[live].at
    requires |top| == 2 ==> own[top[0]].at > own[top[1]].at
    ensures forall s :: s in own - Surplus(own) <==> s == live || (top != [] && s == top[0])
  {
    assert !Outranked(own, live);
    if top != [] {
      assert top[0] in own && !Outranked(own, top[0]);
    }
    if |top| == 2 {
      assert top[0] in own && top[1] in own && own[live].at > own[top[1]].at;
      assert Outranked(own, top[1]);
    }
  }

  lemma FirstSurvivor(full: seq<Slug>, x: Slug)
    requires Distinct(full)
    ensures var left, rest := Without(Newest(full), x), Without(full, x);
            && Distinct(left) && |left| <= 2
            && (left == [] <==> rest == [])
            && (left != [] ==> left[0] == rest[0])
            && (|left| == 2 ==> left == Newest(full))
  {
    var left, rest := Without(Newest(full), x), Without(full, x);
    assert Distinct(Newest(full));
    if rest != [] { assert rest[0] in Newest(full) && rest[0] != x; }
    if left != [] { assert left[0] in rest; }
  }

  lemma TwoNewestAfter(own: map<Slug, Redirect>, full: seq<Slug>, newSlug: Slug, live: Slug, row: Redirect)
    requires Distinct(full) && live !in full && TopTwo(own, full)
    requires forall s :: s in own ==> own[s].at < row.at
    ensures var after := (own - {newSlug})[live := row];
            TopTwo(after - Surplus(after), [live] + Without(full, newSlug))
  {
    var left, rest := Without(Newest(full), newSlug), Without(full, newSlug);
    var after := (own - {newSlug})[live := row];
    FirstSurvivor(full, newSlug);
    assert left != [] ==> left[0] in own && left[0] != live;
    assert forall s :: s in left ==> s in own && s != live && after[s] == own[s];
    TrimKeepsTwo(after, live, left);
    assert Newest([live] + rest) == if rest == [] then [live] else [live, rest[0]];
  }

  lemma RetiredOwn(db: Tables, m: Id, newSlug: Slug, actor: Actor, stamp: int)
    requires WellKept(db) && m in db.mentors && newSlug != db.mentors[m].slug
    ensures var retired := (db.history - {newSlug})[db.mentors[m].slug := Redirect(m, actor, stamp)];
            && Own(retired, m) == (Own(db.history, m) - {newSlug})[db.mentors[m].slug := Redirect(m, actor, stamp)]
            && Own(retired - Surplus(Own(retired, m)), m) == Own(retired, m) - Surplus(Own(retired, m))
  {
  }

  lemma RenameTracks(db: Tables, m: Id, newSlug: Slug, actor: Actor, began: int, stamp: int, full: seq<Slug>)
    requires WellKept(db) && m in db.mentors && Tracks(db, m, full)
    requires newSlug != db.mentors[m].slug
    requires forall s :: s in Own(db.history, m) ==> Own(db.history, m)[s].at < stamp
    ensures Tracks(Renamed(db, m, newSlug, actor, began, stamp), m, [db.mentors[m].slug] + Without(full, newSlug))
  {
    var live := db.mentors[m].slug;
    RetiredOwn(db, m, newSlug, actor, stamp);
    TwoNewestAfter(Own(db.history, m), full, newSlug, live, Redirect(m, actor, stamp));
  }

  /** The trimmed history refines the unbounded list: after any commits, a mentor's
      redirects are exactly the two most recently retired names not in use. */
  lemma {:induction false} RedirectsAreTheTwoNewest(db: Tables, ops: seq<Op>, m: Id, start: seq<Slug>)
    requires WellKept(db) && Tracks(db, m, start) && Legal(db, ops)
    ensures Tracks(Replay(db, ops), m, Retired(db, ops, m, start))
  {
    if ops != [] {
      var k := |ops| - 1;
      var op, before := ops[k], Replay(db, ops[..k]);
      LegalKeepsWellKept(db, ops[..k]);
      RedirectsAreTheTwoNewest(db, ops[..k], m, start);
      if op.mentor != m {
        OthersUntouched(before, op, m);
      } else if op.Rename? {
        RenameTracks(before, m, op.newSlug, op.actor, op.began, op.stamp, Retired(db, ops[..k], m, start));
      } else if op.Purge? {
        assert Own(Apply(before, op).history, m) == map[];
      }
    }
  }

  // ---- The fourteen days -----------------------------------------------------------

  ghost predicate SelfRename(op: Op, m: Id) {
    op.Rename? && op.actor == ByMentor && op.mentor == m
  }

  /** Once a mentor has renamed themselves, the stored time of their latest change
      never falls behind that rename, whatever admins rename or trims delete. */
  lemma {:induction false} LatestChangeKept(db: Tables, ops: seq<Op>, m: Id, i: nat)
    requires WellKept(db) && Legal(db, ops) && i < |ops| && SelfRename(ops[i], m)
    ensures m in Replay(db, ops).issued
    ensures m in Replay(db, ops).mentors ==>
              && Replay(db, ops).mentors[m].changedAt.Some?
              && Replay(db, ops).mentors[m].changedAt.value >= ops[i].began
  {
    var k := |ops| - 1;
    LegalKeepsWellKept(db, ops[..k]);
    if i < k {
      LatestChangeKept(db, ops[..k], m, i);
    }
  }

  /** Two self-renames of one mentor are at least fourteen days apart. */
  lemma {:induction false} SelfRenamesAreFourteenDaysApart(db: Tables, ops: seq<Op>, m: Id, i: nat, j: nat)
    requires WellKept(db) && Legal(db, ops)
    requires i < j < |ops| && SelfRename(ops[i], m) && SelfRename(ops[j], m)
    ensures ops[j].began >= ops[i].began + COOLDOWN
  {
    var k := |ops| - 1;
    if j < k {
      SelfRenamesAreFourteenDaysApart(db, ops[..k], m, i, j);
    } else {
      LatestChangeKept(db, ops[..j], m, i);
      assert ops[..j][i] == ops[i];
    }
  }

  /** When the mentor last renamed themselves, by the log; `start` is what was stored
      before it began. */
  ghost function LastSelfRename(start: Option<int>, ops: seq<Op>, m: Id): Option<int> {
    if ops == [] then start
    else if SelfRename(ops[|ops| - 1], m) then Some(ops[|ops| - 1].began)
    else LastSelfRename(start, ops[..|ops| - 1], m)
  }

  ghost function StoredChange(db: Tables, m: Id): Option<int> {
    if m in db.mentors then db.mentors[m].changedAt else None
  }

  lemma {:induction false} StoredIsLastSelfRename(db: Tables, ops: seq<Op>, m: Id)
    requires WellKept(db) && Legal(db, ops)
    ensures var after := Replay(db, ops);
            && (m !in after.issued ==> LastSelfRename(StoredChange(db, m), ops, m) == None)
            && (m in after.mentors ==> after.mentors[m].changedAt == LastSelfRename(StoredChange(db, m), ops, m))
  {
    if ops != [] {
      var k := |ops| - 1;
      StoredIsLastSelfRename(db, ops[..k], m);
      LegalKeepsWellKept(db, ops[..k]);
    }
  }

  /** The profile exists, is not deleted, and is not called this already. */
  ghost predicate AsksToRename(db: Tables, m: Id, newSlug: Slug) {
    m in db.mentors && db.mentors[m].deletedAt.None? && db.mentors[m].slug != newSlug
  }

  /** A mentor has to wait exactly while their last self-rename is less than fourteen days
      old, and until those are over; admin renames neither start nor prolong the wait, and
      admins never wait. */
  lemma CooldownIsSinceLastSelfRename(db: Tables, ops: seq<Op>, m: Id, newSlug: Slug, now: int)
    requires WellKept(db) && Legal(db, ops) && AsksToRename(Replay(db, ops), m, newSlug)
    ensures var last := LastSelfRename(StoredChange(db, m), ops, m);
            var answer := Judge(Replay(db, ops), m, newSlug, CooldownOf(ByMentor), now);
            && (answer.Cooling? <==> last.Some? && now - last.value < 14 * 24 * 60 * 60)
            && (answer.Cooling? ==> answer.next == last.value + 14 * 24 * 60 * 60)
            && !Judge(Replay(db, ops), m, newSlug, CooldownOf(ByAdmin), now).Cooling?
  {
    StoredIsLastSelfRename(db, ops, m);
  }

  ghost function SelfRenames(ops: seq<Op>, m: Id): (own: seq<Op>)
    ensures forall i :: 0 <= i < |own| ==> SelfRename(own[i], m)
  {
    if ops == [] then []
    else
      SelfRenames(ops[..|ops| - 1], m) + if SelfRename(ops[|ops| - 1], m) then [ops[|ops| - 1]] else []
  }

  lemma {:induction false} LastOfSelfRenames(start: Option<int>, ops: seq<Op>, m: Id)
    ensures var own := SelfRenames(ops, m);
            LastSelfRename(start, ops, m) == if own == [] then start else Some(own[|own| - 1].began)
  {
    if ops != [] { LastOfSelfRenames(start, ops[..|ops| - 1], m); }
  }

  /** Two histories with the same self-renames of a mentor, and any other renames by
      admins, give the mentor the same waiting times. */
  lemma OnlySelfRenamesCount(db: Tables, ops: seq<Op>, others: seq<Op>, m: Id, a: Slug, b: Slug, now: int)
    requires WellKept(db) && Legal(db, ops) && Legal(db, others) && SelfRenames(ops, m) == SelfRenames(others, m)
    requires AsksToRename(Replay(db, ops), m, a) && AsksToRename(Replay(db, others), m, b)
    ensures var x := Judge(Replay(db, ops), m, a, CooldownOf(ByMentor), now);
            var y := Judge(Replay(db, others), m, b, CooldownOf(ByMentor), now);
            (x.Cooling? <==> y.Cooling?) && (x.Cooling? ==> x == y)
  {
    CooldownIsSinceLastSelfRename(db, ops, m, a, now);
    CooldownIsSinceLastSelfRename(db, others, m, b, now);
    LastOfSelfRenames(StoredChange(db, m), ops, m);
    LastOfSelfRenames(StoredChange(db, m), others, m);
  }

  // ---- Who may have a name ------------------------------------------------------------

  /** Once the wait is over, a name is refused exactly when somebody else owns it, live or
      as a redirect; one's own retired name can be taken back. */
  lemma RefusedIffOwnedByAnother(db: Tables, m: Id, newSlug: Slug, actor: Actor, now: int)
    requires WellKept(db) && AsksToRename(db, m, newSlug)
    requires !Judge(db, m, newSlug, CooldownOf(actor), now).Cooling?
    ensures var answer := Judge(db, m, newSlug, CooldownOf(actor), now);
            && (answer == Taken <==> exists n :: n != m && Owns(db, n, newSlug))
            && (answer == Granted <==> forall n :: Owns(db, n, newSlug) ==> n == m)
  {
    if IsCurrent(db, newSlug) {
      var n :| n in db.mentors && db.mentors[n].slug == newSlug;
      assert n != m && Owns(db, n, newSlug);
    }
    if newSlug in db.history {
      assert Owns(db, db.history[newSlug].mentor, newSlug);
    }
  }

  /** A granted rename makes the name the mentor's live one and keeps the old one theirs;
      everybody else owns what they owned. */
  lemma RenameMovesNames(db: Tables, m: Id, newSlug: Slug, actor: Actor, now: int, began: int, stamp: int)
    requires WellKept(db) && Allowed(db, Rename(m, newSlug, actor, now, began, stamp))
    ensures var after := Apply(db, Rename(m, newSlug, actor, now, began, stamp));
            && after.mentors.Keys == db.mentors.Keys && after.mentors[m].slug == newSlug
            && after.mentors[m].deletedAt == db.mentors[m].deletedAt
            && db.mentors[m].slug in after.history && after.history[db.mentors[m].slug] == Redirect(m, actor, stamp)
            && (forall n :: n in db.mentors && n != m ==> after.mentors[n] == db.mentors[n])
            && (forall n, s :: n != m ==> (Owns(after, n, s) <==> Owns(db, n, s)))
  {
    var after := Apply(db, Rename(m, newSlug, actor, now, began, stamp));
    var live := db.mentors[m].slug;
    RetiredOwn(db, m, newSlug, actor, stamp);
    var own := (Own(db.history, m) - {newSlug})[live := Redirect(m, actor, stamp)];
    assert !Outranked(own, live);
    assert live in Own(after.history, m);
    forall n, s | n != m ensures Owns(after, n, s) <==> Owns(db, n, s) {
      OthersUntouched(db, Rename(m, newSlug, actor, now, began, stamp), n);
      assert s in Own(after.history, n) <==> s in Own(db.history, n);
    }
  }

  /** A deleted profile can be renamed by nobody and deleted no second time, but keeps its
      names; a restore undoes the deletion, a purge frees them and touches no other's. */
  lemma DeletedProfilesKeepTheirNames(db: Tables, m: Id, at: int)
    requires WellKept(db) && m in db.mentors && db.mentors[m].deletedAt.None?
    ensures var gone := Apply(db, SoftDelete(m, at));
            && Allowed(db, SoftDelete(m, at)) && !Allowed(db, Restore(m)) && !Allowed(db, Purge(m))
            && (forall again :: !Allowed(gone, SoftDelete(m, again)))
            && (forall s, cooldown, now :: Judge(gone, m, s, cooldown, now) == NotFound)
            && (forall n, s :: Owns(gone, n, s) <==> Owns(db, n, s))
            && Allowed(gone, Restore(m)) && Apply(gone, Restore(m)) == db
            && Allowed(gone, Purge(m))
            && (forall n, s :: Owns(Apply(gone, Purge(m)), n, s) <==> Owns(db, n, s) && n != m)
  {
    var gone := Apply(db, SoftDelete(m, at));
    assert Apply(gone, Restore(m)).mentors == db.mentors;
  }

  // ---- The read-only checks ----------------------------------------------------------

  function IsSlugTaken(db: Tables, slug: Slug, exclude: Option<Id>): bool {
    IsCurrent(db, slug) || (slug in db.history && !(exclude.Some? && db.history[slug].mentor == exclude.value))
  }

  datatype Availability = Malformed | Free | InUse

  /** CheckAvailability: a deleted profile is not found by the portal read, so its
      own current name is not recognised as its own. */
  function CheckAvailability(db: Tables, slug: Slug, wellFormed: bool, m: Option<Id>): Availability {
    if !wellFormed then Malformed
    else if m.Some? && m.value in db.mentors && db.mentors[m.value].deletedAt.None? && db.mentors[m.value].slug == slug
    then Free
    else if IsSlugTaken(db, slug, m) then InUse
    else Free
  }

  /** In an unchanged state the availability answer for an existing, non-deleted
      profile is the outcome of an admin rename; for any other id the rename finds
      nobody, whatever the answer. */
  lemma AvailabilityPredictsAdminRename(db: Tables, slug: Slug, m: Id, now: int)
    ensures m in db.mentors && db.mentors[m].deletedAt.None? ==>
              (CheckAvailability(db, slug, true, Some(m)) == Free <==>
               Judge(db, m, slug, CooldownOf(ByAdmin), now) in {NoOp, Granted})
    ensures !(m in db.mentors && db.mentors[m].deletedAt.None?) ==>
              Judge(db, m, slug, CooldownOf(ByAdmin), now) == NotFound
    ensures m in db.mentors && db.mentors[m].deletedAt.None? && db.mentors[m].slug == slug ==>
              forall actor :: Judge(db, m, slug, CooldownOf(actor), now) == NoOp
    ensures CheckAvailability(db, slug, true, None) == Free <==> forall n :: !Owns(db, n, slug)
  {
    if IsCurrent(db, slug) {
      var n :| n in db.mentors && db.mentors[n].slug == slug;
      assert Owns(db, n, slug);
    }
    if slug in db.history { assert Owns(db, db.history[slug].mentor, slug); }
  }
}
