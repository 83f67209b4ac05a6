/** The irreversible half of profile deletion: one profile erased with everything its
    foreign keys reach, and the nightly sweep. */
module ProfilePurge {
  import opened Prelude

  type Id = nat

  const DAY := 86400

  datatype Tag = Tag(mentor: Id, name: Id)

  /** Rows and the rows they refer to; a mentor row is its deletion time, a request may
      be orphaned (None). */
  datatype Db = Db(mentors: map<Id, Option<int>>, tags: set<Tag>, slugs: map<string, Id>,
                   requests: map<Id, Option<Id>>, reviews: map<Id, Id>, invitations: map<Id, Id>)

  /** The foreign keys, and one review per request. */
  ghost predicate Linked(db: Db) {
    && (forall t :: t in db.tags ==> t.mentor in db.mentors)
    && (forall s :: s in db.slugs ==> db.slugs[s] in db.mentors)
    && (forall r :: r in db.requests && db.requests[r].Some? ==> db.requests[r].value in db.mentors)
    && (forall v :: v in db.reviews ==> db.reviews[v] in db.requests)
    && (forall i :: i in db.invitations ==> db.invitations[i] in db.requests)
  }

  predicate Purgeable(db: Db, m: Id, retentionDays: int, now: int) {
    m in db.mentors && db.mentors[m].Some? && db.mentors[m].value < now - retentionDays * DAY
  }

  // ---- Reach ------------------------------------------------------------------------

  function RequestsOf(db: Db, m: Id): set<Id> {
    set r | r in db.requests && db.requests[r] == Some(m)
  }

  function ReviewsOf(db: Db, m: Id): set<Id> {
    set v | v in db.reviews && db.reviews[v] in RequestsOf(db, m)
  }

  function InvitationsOf(db: Db, m: Id): set<Id> {
    set i | i in db.invitations && db.invitations[i] in RequestsOf(db, m)
  }

  function TagsOf(db: Db, m: Id): set<Tag> {
    set t | t in db.tags && t.mentor == m
  }

  function SlugsOf(db: Db, m: Id): set<string> {
    set s | s in db.slugs && db.slugs[s] == m
  }

  /** Requests of any of these mentors. */
  function Lost(db: Db, gone: set<Id>): set<Id> {
    set r | r in db.requests && db.requests[r].Some? && db.requests[r].value in gone
  }

  /** Everything that no mentor in `gone` reaches. */
  function Without(db: Db, gone: set<Id>): Db {
    var lost := Lost(db, gone);
    Db(map m | m in db.mentors && m !in gone :: db.mentors[m],
       (set t | t in db.tags && t.mentor !in gone),
       map s | s in db.slugs && db.slugs[s] !in gone :: db.slugs[s],
       map r | r in db.requests && r !in lost :: db.requests[r],
       map v | v in db.reviews && db.reviews[v] !in lost :: db.reviews[v],
       map i | i in db.invitations && db.invitations[i] !in lost :: db.invitations[i])
  }

  // ---- The two DELETE statements and what they cascade to ----------------------------

  function DeleteRequests(db: Db, m: Id): Db {
    var victims := RequestsOf(db, m);
    db.(requests := db.requests - victims,
        reviews := map v | v in db.reviews && db.reviews[v] !in victims :: db.reviews[v],
        invitations := map i | i in db.invitations && db.invitations[i] !in victims :: db.invitations[i])
  }

  /** Tags and redirects cascade, requests are orphaned. */
  function DeleteMentor(db: Db, m: Id): Db {
    db.(mentors := db.mentors - {m},
        tags := (set t | t in db.tags && t.mentor != m),
        slugs := map s | s in db.slugs && db.slugs[s] != m :: db.slugs[s],
        requests := map r | r in db.requests :: if db.requests[r] == Some(m) then None else db.requests[r])
  }

  /** Deleting requests before the mentor removes exactly what is reachable from the
      mentor, orphans nothing and keeps the foreign keys. */
  lemma PurgeErasesTheReach(db: Db, m: Id)
    requires Linked(db)
    ensures DeleteMentor(DeleteRequests(db, m), m) == Without(db, {m}) && Linked(Without(db, {m}))
    ensures forall r :: r in Without(db, {m}).requests && Without(db, {m}).requests[r].None? ==>
              r in db.requests && db.requests[r].None?
  {
    assert Lost(db, {m}) == RequestsOf(db, m);
    var cleared := DeleteRequests(db, m);
    assert forall r :: r in cleared.requests ==> cleared.requests[r] != Some(m);
    assert DeleteMentor(cleared, m).requests == cleared.requests == Without(db, {m}).requests;
    assert DeleteMentor(cleared, m).mentors == Without(db, {m}).mentors;
  }

  /** Another mentor's rows do not notice. */
  lemma OthersUntouched(db: Db, gone: set<Id>, n: Id)
    requires Linked(db) && n !in gone
    ensures RequestsOf(Without(db, gone), n) == RequestsOf(db, n) && ReviewsOf(Without(db, gone), n) == ReviewsOf(db, n)
    ensures InvitationsOf(Without(db, gone), n) == InvitationsOf(db, n)
    ensures TagsOf(Without(db, gone), n) == TagsOf(db, n) && SlugsOf(Without(db, gone), n) == SlugsOf(db, n)
    ensures n in db.mentors ==> n in Without(db, gone).mentors && Without(db, gone).mentors[n] == db.mentors[n]
  {
    assert RequestsOf(Without(db, gone), n) == RequestsOf(db, n);
    assert ReviewsOf(Without(db, gone), n) == ReviewsOf(db, n);
    assert InvitationsOf(Without(db, gone), n) == InvitationsOf(db, n);
  }

  datatype Counts = Counts(requests: nat, reviews: nat, invitations: nat)

  function CountsOf(db: Db, m: Id): Counts {
    Counts(|RequestsOf(db, m)|, |ReviewsOf(db, m)|, |InvitationsOf(db, m)|)
  }

  /** As many rows gone as counted. */
  predicate Shrank(before: Db, after: Db, c: Counts) {
    && |before.requests.Keys| == |after.requests.Keys| + c.requests
    && |before.reviews.Keys| == |after.reviews.Keys| + c.reviews
    && |before.invitations.Keys| == |after.invitations.Keys| + c.invitations
  }

  function Plus(a: Counts, b: Counts): Counts {
    Counts(a.requests + b.requests, a.reviews + b.reviews, a.invitations + b.invitations)
  }

  lemma KeptAndLost<K>(a: set<K>, kept: set<K>, lost: set<K>)
    requires lost <= a && forall k :: k in kept <==> k in a && k !in lost
    ensures |a| == |kept| + |lost|
  {
    assert kept == a - lost;
  }

  lemma LostOf(db: Db, m: Id)
    ensures Lost(db, {m}) == RequestsOf(db, m)
  {
  }

  lemma RequestsRemoved(db: Db, m: Id)
    ensures |db.requests.Keys| == |Without(db, {m}).requests.Keys| + |RequestsOf(db, m)|
  {
    LostOf(db, m);
    KeptAndLost(db.requests.Keys, Without(db, {m}).requests.Keys, RequestsOf(db, m));
  }

  lemma ReviewsRemoved(db: Db, m: Id)
    ensures |db.reviews.Keys| == |Without(db, {m}).reviews.Keys| + |ReviewsOf(db, m)|
  {
    LostOf(db, m);
    KeptAndLost(db.reviews.Keys, Without(db, {m}).reviews.Keys, ReviewsOf(db, m));
  }

  lemma InvitationsRemoved(db: Db, m: Id)
    ensures |db.invitations.Keys| == |Without(db, {m}).invitations.Keys| + |InvitationsOf(db, m)|
  {
    LostOf(db, m);
    KeptAndLost(db.invitations.Keys, Without(db, {m}).invitations.Keys, InvitationsOf(db, m));
  }

  /** What is counted before the erasure is what the erasure removes. */
  lemma CountsAreRowsRemoved(db: Db, m: Id)
    ensures Shrank(db, Without(db, {m}), CountsOf(db, m))
  {
    RequestsRemoved(db, m);
    ReviewsRemoved(db, m);
    InvitationsRemoved(db, m);
  }

  // ---- One profile --------------------------------------------------------------------

  /** What other transactions may commit while the purge holds the mentor row: its key is
      locked, so no request can come to refer to it; reviews and invitations for its
      requests may be added, and only a purge removes any. */
  ghost predicate Rely(before: Db, after: Db, m: Id) {
    && Linked(after) && m in before.mentors && m in after.mentors && after.mentors[m] == before.mentors[m]
    && RequestsOf(after, m) == RequestsOf(before, m)
    && ReviewsOf(before, m) <= ReviewsOf(after, m) && InvitationsOf(before, m) <= InvitationsOf(after, m)
  }

  /** No review or invitation was committed for m's requests in between. */
  predicate Undisturbed(before: Db, after: Db, m: Id) {
    ReviewsOf(after, m) == ReviewsOf(before, m) && InvitationsOf(after, m) == InvitationsOf(before, m)
  }

  predicate AtMost(a: Counts, b: Counts) {
    a.requests <= b.requests && a.reviews <= b.reviews && a.invitations <= b.invitations
  }

  lemma {:induction false} SubsetSize<K>(a: set<K>, b: set<K>)
    requires a <= b
    ensures |a| <= |b| && (|a| == |b| <==> a == b)
  {
    assert b == a + (b - a) && |b| == |a| + |b - a|;
  }

  /** Counting before the deletes never counts too much, and counts right exactly when
      nothing came in between. */
  lemma CountsRightIffUndisturbed(counted: Db, atDelete: Db, m: Id)
    requires Rely(counted, atDelete, m)
    ensures AtMost(CountsOf(counted, m), CountsOf(atDelete, m))
    ensures CountsOf(counted, m) == CountsOf(atDelete, m) <==> Undisturbed(counted, atDelete, m)
    ensures CountsOf(counted, m).requests == CountsOf(atDelete, m).requests
  {
    SubsetSize(ReviewsOf(counted, m), ReviewsOf(atDelete, m));
    SubsetSize(InvitationsOf(counted, m), InvitationsOf(atDelete, m));
  }

  lemma OnlyTheRightCountShrinks(before: Db, after: Db, c: Counts, d: Counts)
    requires Shrank(before, after, c)
    ensures Shrank(before, after, d) <==> d == c
  {
  }

  datatype Erasure = Refused | NotPurgeable | Purged(counts: Counts)

  datatype Summary = Summary(matched: nat, purged: nat, skipped: nat, failed: nat, counts: Counts)

  class Store {
    var db: Db

    constructor (db: Db)
      ensures this.db == db
    {
      this.db := db;
    }

    /** `meanwhile` is what others commit between the counting statement and the first
        DELETE. */
    method PurgeProfile(m: Id, retentionDays: int, now: int, meanwhile: Db) returns (r: Erasure)
      requires Linked(db)
      requires Purgeable(db, m, retentionDays, now) ==> Rely(db, meanwhile, m)
      modifies this
      ensures r == Refused <==> retentionDays <= 0
      ensures r.Purged? <==>
                && retentionDays > 0 && m in old(db).mentors && old(db).mentors[m].Some?
                && now - old(db).mentors[m].value > retentionDays * (24 * 60 * 60)
      ensures !r.Purged? ==> db == old(db)
      ensures r.Purged? ==> db == Without(meanwhile, {m}) && Linked(db) && r.counts == CountsOf(old(db), m)
      ensures r.Purged? ==> (Shrank(meanwhile, db, r.counts) <==> Undisturbed(old(db), meanwhile, m))
      ensures r.Purged? ==> AtMost(r.counts, CountsOf(meanwhile, m)) && Shrank(meanwhile, db, CountsOf(meanwhile, m))
    {
      if retentionDays <= 0 { return Refused; }
      if !Purgeable(db, m, retentionDays, now) { return NotPurgeable; }
      var counts := CountsOf(db, m);
      CountsRightIffUndisturbed(db, meanwhile, m);
      db := meanwhile;
      PurgeErasesTheReach(db, m);
      CountsAreRowsRemoved(db, m);
      OnlyTheRightCountShrinks(db, Without(db, {m}), CountsOf(db, m), counts);
      db := DeleteRequests(db, m);
      db := DeleteMentor(db, m);
      return Purged(counts);
    }

    /** Oldest deletion first, each once. */
    method ListPurgeableProfiles(retentionDays: int, now: int) returns (profiles: Option<seq<Id>>)
      ensures profiles.None? <==> retentionDays <= 0
      ensures profiles.Some? ==>
                && (forall m :: m in profiles.value <==>
                      m in db.mentors && db.mentors[m].Some?
                      && now - db.mentors[m].value > retentionDays * (24 * 60 * 60))
                && (forall m :: m in profiles.value <==> Purgeable(db, m, retentionDays, now))
                && (forall i, j :: 0 <= i < j < |profiles.value| ==> profiles.value[i] != profiles.value[j])
                && Oldest(db, profiles.value)
    {
      if retentionDays <= 0 { return None; }
      var todo := set m | m in db.mentors && Purgeable(db, m, retentionDays, now);
      var listed := [];
      while todo != {}
        invariant forall m :: m in todo || m in listed <==> Purgeable(db, m, retentionDays, now)
        invariant forall m :: m in todo ==> m !in listed
        invariant forall i, j :: 0 <= i < j < |listed| ==> listed[i] != listed[j]
        invariant Oldest(db, listed)
        invariant forall i, m :: 0 <= i < |listed| && m in todo ==> DeletedAt(db, listed[i]) <= DeletedAt(db, m)
        decreases todo
      {
        OldestExists(db, todo);
        var m :| m in todo && IsOldest(db, m, todo);
        todo := todo - {m};
        listed := listed + [m];
      }
      return Some(listed);
    }

    /** One profile's turn: an admin may have restored it since it was listed, and others
        commit what they like between its count and its deletes. */
    method TakeTurn(m: Id, retentionDays: int, now: int, restored: bool, fails: bool, others: (Id, Db) -> Db)
      returns (r: Erasure)
      requires Linked(db) && retentionDays > 0 && Cooperative(others)
      modifies this
      ensures r.Purged? <==> !fails && !restored && Purgeable(old(db), m, retentionDays, now)
      ensures fails <==> r == Refused
      ensures Turned(old(db), db, m, others(m, old(db)), r) && KeepsDeleted(old(db), db, m)
    {
      if restored {
        RestoringErasesNothing(db, {m});
        db := Restored(db, {m});
      } else {
        RestoringNobody(db);
      }
      if fails { return Refused; }
      label turn:
      r := PurgeProfile(m, retentionDays, now, others(m, db));
      if r.Purged? { PurgedTurn(old@turn(db), m, others(m, old@turn(db))); }
    }

    method BookTurn(m: Id, retentionDays: int, now: int, restored: bool, fails: bool, others: (Id, Db) -> Db,
                    ghost start: Db, ghost erased: seq<Id>, ghost turns: seq<Turn>, ghost counts: Counts,
                    ghost quiet: bool)
      returns (r: Erasure, ghost more: seq<Turn>)
      requires Linked(db) && retentionDays > 0 && Cooperative(others)
      requires quiet == Quiet(others) && Booked(start, db, erased, turns, counts, others, quiet)
      modifies this
      ensures r.Purged? <==> !fails && !restored && Purgeable(old(db), m, retentionDays, now)
      ensures KeepsDeleted(old(db), db, m)
      ensures fails <==> r == Refused
      ensures Booked(start, db, if r.Purged? then erased + [m] else erased, more, Totals(counts, r), others, quiet)
    {
      r := TakeTurn(m, retentionDays, now, restored, fails, others);
      if r.Purged? {
        OneMoreBooked(start, old(db), db, erased, turns, counts, others, quiet, m, r);
        more := turns + [Turn(m, old(db), others(m, old(db)), db)];
      } else {
        NoneBooked(start, old(db), db, erased, turns, counts, others, quiet);
        more := turns;
      }
    }

    /** The sweep. A failure costs that profile only, a profile in `restored` was brought
        back between the listing and its turn. Returns, with the totals, the profiles
        announced as erased: exactly those due that neither failed nor were restored. The
        totals never exceed the rows removed, and equal them exactly when no review or
        invitation came in between any count and its deletes. */
    method PurgeDeletedProfiles(retentionDays: int, now: int, restored: set<Id>, failing: set<Id>,
        others: (Id, Db) -> Db)
      returns (r: Option<Summary>, erased: seq<Id>, ghost turns: seq<Turn>)
      requires Linked(db) && Cooperative(others)
      modifies this
      ensures r.None? <==> retentionDays <= 0
      ensures r.None? ==> db == old(db) && erased == []
      ensures r.Some? ==> r.value.matched == r.value.purged + r.value.skipped + r.value.failed
      ensures r.Some? ==> r.value.purged == |erased|
      ensures r.Some? ==> forall m :: m in erased <==>
                && m in old(db).mentors && old(db).mentors[m].Some?
                && now - old(db).mentors[m].value > retentionDays * (24 * 60 * 60)
                && m !in restored && m !in failing
      ensures r.Some? ==> OldestFirst(old(db), erased)
      ensures r.Some? ==> Linked(db) && AllSound(turns, erased) && Chain(old(db), turns, db, others)
      ensures r.Some? ==> r.value.counts == Counted(turns)
      ensures r.Some? ==> AtMost(r.value.counts, Removed(turns))
      ensures r.Some? ==> (r.value.counts == Removed(turns) <==> AllUndisturbed(turns))
      ensures r.Some? && Quiet(others) ==> Erased(old(db), db, Members(erased), r.value.counts)
    {
      erased, turns := [], [];
      var listed := ListPurgeableProfiles(retentionDays, now);
      if listed.None? { return None, [], []; }
      var profiles := listed.value;
      var s := Summary(|profiles|, 0, 0, 0, NONE);
      ghost var quiet := Quiet(others);
      NothingBooked(db, others, quiet);
      for i := 0 to |profiles|
        invariant Swept(old(db), db, profiles[..i], profiles[i..], erased, s, restored, failing)
        invariant Booked(old(db), db, erased, turns, s.counts, others, quiet)
        invariant Oldest(old(db), erased)
      {
        var m := profiles[i];
        OldestSnoc(old(db), profiles, i, erased);
        StillDue(old(db), db, profiles, i, retentionDays, now, erased, s, restored, failing);
        label turn:
        var outcome;
        outcome, turns := BookTurn(m, retentionDays, now, m in restored, m in failing, others,
                                   old(db), erased, turns, s.counts, quiet);
        OneMoreSwept(old(db), old@turn(db), db, profiles, i, erased, s, restored, failing, outcome);
        s := Tally(s, outcome);
        if outcome.Purged? { erased := erased + [m]; }
      }
      TotalsRightIffUndisturbed(turns, erased);
      SweepDone(old(db), db, profiles, retentionDays, now, erased, s, restored, failing);
      return Some(s), erased, turns;
    }
  }

  /** Each was deleted before those after it. */
  ghost predicate OldestFirst(db: Db, profiles: seq<Id>) {
    forall i, j :: 0 <= i < j < |profiles| ==>
      && profiles[i] in db.mentors && db.mentors[profiles[i]].Some?
      && profiles[j] in db.mentors && db.mentors[profiles[j]].Some?
      && db.mentors[profiles[i]].value <= db.mentors[profiles[j]].value
  }

  lemma OldestSnoc(db: Db, profiles: seq<Id>, i: nat, erased: seq<Id>)
    requires i < |profiles| && Oldest(db, profiles) && Oldest(db, erased)
    requires forall m :: m in erased ==> m in profiles[..i]
    ensures Oldest(db, erased + [profiles[i]])
  {
    forall j | 0 <= j < |erased| ensures DeletedAt(db, erased[j]) <= DeletedAt(db, profiles[i]) {
      assert erased[j] in profiles[..i];
    }
  }

  lemma SweepDone(start: Db, db: Db, profiles: seq<Id>, retentionDays: int, now: int, erased: seq<Id>, s: Summary,
                  restored: set<Id>, failing: set<Id>)
    requires forall m :: m in profiles <==> Purgeable(start, m, retentionDays, now)
    requires Swept(start, db, profiles[..|profiles|], profiles[|profiles|..], erased, s, restored, failing)
    requires Oldest(start, erased)
    ensures s.matched == s.purged + s.skipped + s.failed && s.purged == |erased|
    ensures forall m :: m in erased <==>
              && m in start.mentors && start.mentors[m].Some?
              && now - start.mentors[m].value > retentionDays * (24 * 60 * 60)
              && m !in restored && m !in failing
    ensures OldestFirst(start, erased)
  {
    assert profiles[..|profiles|] == profiles;
    forall i | 0 <= i < |erased| ensures erased[i] in start.mentors && start.mentors[erased[i]].Some? {
      assert erased[i] in erased;
    }
  }

  /** What is due stays due, a longer retention is due for fewer, and whatever is deleted
      earlier is due sooner. */
  lemma RetentionOnlyGrows(db: Db, m: Id, n: Id, days: int, more: int, now: int, later: int)
    requires Purgeable(db, m, days, now) && now <= later
    ensures Purgeable(db, m, days, later)
    ensures more <= days ==> Purgeable(db, m, more, now)
    ensures n in db.mentors && db.mentors[n].Some? && db.mentors[n].value <= db.mentors[m].value ==>
              Purgeable(db, n, days, now)
    ensures n in db.mentors && db.mentors[n].Some? && now - db.mentors[n].value <= days * (24 * 60 * 60) ==>
              !Purgeable(db, n, days, now) && db.mentors[n].value > db.mentors[m].value
  {
  }

  // ---- The sweep ------------------------------------------------------------------------

  lemma PurgedTurn(db: Db, m: Id, atDelete: Db)
    requires Rely(db, atDelete, m) && KeepsDeleted(db, atDelete, m)
    ensures TurnSound(Turn(m, db, atDelete, Without(atDelete, {m}))) && KeepsDeleted(db, Without(atDelete, {m}), m)
  {
    CountsAreRowsRemoved(atDelete, m);
  }

  /** Other profiles already deleted stay as they are: restores are the sweep's `restored`,
      and no second purge runs. */
  predicate KeepsDeleted(before: Db, after: Db, m: Id) {
    forall n :: n in before.mentors && n != m && before.mentors[n].Some? ==>
      n in after.mentors && after.mentors[n] == before.mentors[n]
  }

  /** What the rest of the system commits during the turn of m, whatever the tables. */
  ghost predicate Cooperative(others: (Id, Db) -> Db) {
    forall m, d :: Linked(d) && m in d.mentors ==> Rely(d, others(m, d), m) && KeepsDeleted(d, others(m, d), m)
  }

  ghost predicate Quiet(others: (Id, Db) -> Db) {
    forall m, d :: others(m, d) == d
  }

  /** One erasure: the tables counted, the tables when the deletes ran, and afterwards. */
  datatype Turn = Turn(mentor: Id, counted: Db, atDelete: Db, after: Db)

  ghost predicate TurnSound(t: Turn) {
    && Rely(t.counted, t.atDelete, t.mentor) && t.after == Without(t.atDelete, {t.mentor})
    && Shrank(t.atDelete, t.after, CountsOf(t.atDelete, t.mentor))
  }

  ghost predicate AllSound(turns: seq<Turn>, erased: seq<Id>) {
    |turns| == |erased| && forall i :: 0 <= i < |turns| ==> TurnSound(turns[i]) && turns[i].mentor == erased[i]
  }

  predicate Calm(t: Turn) {
    Undisturbed(t.counted, t.atDelete, t.mentor)
  }

  predicate AllUndisturbed(turns: seq<Turn>) {
    forall i :: 0 <= i < |turns| ==> Calm(turns[i])
  }

  function Before(t: Turn): Counts {
    CountsOf(t.counted, t.mentor)
  }

  function At(t: Turn): Counts {
    CountsOf(t.atDelete, t.mentor)
  }

  function Counted(turns: seq<Turn>): Counts {
    if turns == [] then NONE else Plus(Counted(turns[..|turns| - 1]), Before(turns[|turns| - 1]))
  }

  /** The rows the turns' deletes removed. */
  function Removed(turns: seq<Turn>): Counts {
    if turns == [] then NONE else Plus(Removed(turns[..|turns| - 1]), At(turns[|turns| - 1]))
  }

  lemma PlusAtMost(a: Counts, b: Counts, c: Counts, d: Counts)
    requires AtMost(a, b) && AtMost(c, d)
    ensures AtMost(Plus(a, c), Plus(b, d)) && (Plus(a, c) == Plus(b, d) <==> a == b && c == d)
  {
  }

  lemma {:induction false} TotalsRightIffUndisturbed(turns: seq<Turn>, erased: seq<Id>)
    requires AllSound(turns, erased)
    ensures AtMost(Counted(turns), Removed(turns))
    ensures Counted(turns) == Removed(turns) <==> AllUndisturbed(turns)
  {
    if turns != [] {
      var k := |turns| - 1;
      TotalsRightIffUndisturbed(turns[..k], erased[..k]);
      TurnRightIffUndisturbed(turns[k]);
      PlusAtMost(Counted(turns[..k]), Removed(turns[..k]), Before(turns[k]), At(turns[k]));
      UndisturbedSnoc(turns);
    }
  }

  lemma TurnRightIffUndisturbed(t: Turn)
    requires TurnSound(t)
    ensures AtMost(Before(t), At(t)) && (Before(t) == At(t) <==> Calm(t))
  {
    CountsRightIffUndisturbed(t.counted, t.atDelete, t.mentor);
  }

  lemma UndisturbedSnoc(turns: seq<Turn>)
    requires turns != []
    ensures AllUndisturbed(turns) <==> AllUndisturbed(turns[..|turns| - 1]) && Calm(turns[|turns| - 1])
  {
  }

  predicate Untouched(before: Db, after: Db, ms: seq<Id>) {
    forall n :: n in ms ==> n in before.mentors && before.mentors[n].Some?
                            && n in after.mentors && after.mentors[n] == before.mentors[n]
  }

  /** What happened to the profiles done, and that those to come are as they were listed. */
  ghost predicate Swept(start: Db, db: Db, done: seq<Id>, rest: seq<Id>, erased: seq<Id>, s: Summary,
                        restored: set<Id>, failing: set<Id>)
  {
    && s.matched == |done| + |rest| && |done| == s.purged + s.skipped + s.failed && s.purged == |erased|
    && Untouched(start, db, rest)
    && forall m :: m in erased <==> m in done && m !in restored && m !in failing
  }

  /** The turns follow one another: each counts what the one before left, but for mentors
      restored, and deletes from what others then made of it. */
  ghost predicate Chain(start: Db, turns: seq<Turn>, db: Db, others: (Id, Db) -> Db) {
    if turns == [] then SameRows(start, db)
    else
      var k := |turns| - 1;
      && Chain(start, turns[..k], turns[k].counted, others)
      && turns[k].atDelete == others(turns[k].mentor, turns[k].counted) && SameRows(turns[k].after, db)
  }

  lemma ChainOn(start: Db, turns: seq<Turn>, before: Db, after: Db, others: (Id, Db) -> Db)
    requires Chain(start, turns, before, others) && SameRows(before, after)
    ensures Chain(start, turns, after, others)
  {
  }

  lemma ChainSnoc(start: Db, turns: seq<Turn>, t: Turn, others: (Id, Db) -> Db)
    requires Chain(start, turns, t.counted, others) && t.atDelete == others(t.mentor, t.counted)
    ensures Chain(start, turns + [t], t.after, others)
  {
    assert (turns + [t])[..|turns|] == turns;
  }

  /** The totals so far against the turns so far. */
  ghost predicate Booked(start: Db, db: Db, erased: seq<Id>, turns: seq<Turn>, counts: Counts,
                         others: (Id, Db) -> Db, quiet: bool)
  {
    && Linked(db) && counts == Counted(turns) && AllSound(turns, erased) && Chain(start, turns, db, others)
    && (quiet ==> Erased(start, db, Members(erased), counts))
  }

  lemma StillDue(start: Db, db: Db, profiles: seq<Id>, i: nat, retentionDays: int, now: int, erased: seq<Id>,
                 s: Summary, restored: set<Id>, failing: set<Id>)
    requires i < |profiles| && Swept(start, db, profiles[..i], profiles[i..], erased, s, restored, failing)
    requires forall m :: m in profiles ==> Purgeable(start, m, retentionDays, now)
    ensures Purgeable(db, profiles[i], retentionDays, now)
  {
    assert profiles[i] in profiles[i..] && profiles[i] in profiles;
  }

  lemma RestUntouched(start: Db, before: Db, after: Db, profiles: seq<Id>, i: nat)
    requires i < |profiles| && forall j, k :: 0 <= j < k < |profiles| ==> profiles[j] != profiles[k]
    requires Untouched(start, before, profiles[i..]) && KeepsDeleted(before, after, profiles[i])
    ensures Untouched(start, after, profiles[i + 1..])
  {
    forall n | n in profiles[i + 1..] ensures n in profiles[i..] && n != profiles[i] {
      var k :| i + 1 <= k < |profiles| && profiles[k] == n;
    }
  }

  lemma TurnSnoc(turns: seq<Turn>, erased: seq<Id>, t: Turn)
    requires AllSound(turns, erased) && TurnSound(t)
    ensures AllSound(turns + [t], erased + [t.mentor])
    ensures Counted(turns + [t]) == Plus(Counted(turns), Before(t))
  {
    assert (turns + [t])[..|turns|] == turns;
  }

  lemma OneMoreSwept(start: Db, before: Db, after: Db, profiles: seq<Id>, i: nat, erased: seq<Id>, s: Summary,
                     restored: set<Id>, failing: set<Id>, outcome: Erasure)
    requires i < |profiles| && forall j, k :: 0 <= j < k < |profiles| ==> profiles[j] != profiles[k]
    requires Swept(start, before, profiles[..i], profiles[i..], erased, s, restored, failing)
    requires KeepsDeleted(before, after, profiles[i])
    requires outcome.Purged? <==> profiles[i] !in restored && profiles[i] !in failing
    ensures Swept(start, after, profiles[..i + 1], profiles[i + 1..],
                  if outcome.Purged? then erased + [profiles[i]] else erased, Tally(s, outcome), restored, failing)
  {
    assert profiles[..i + 1] == profiles[..i] + [profiles[i]];
    RestUntouched(start, before, after, profiles, i);
  }

  lemma OneMoreBooked(start: Db, before: Db, after: Db, erased: seq<Id>, turns: seq<Turn>, counts: Counts,
                      others: (Id, Db) -> Db, quiet: bool, m: Id, outcome: Erasure)
    requires Booked(start, before, erased, turns, counts, others, quiet)
    requires outcome.Purged? && Turned(before, after, m, others(m, before), outcome)
    requires (quiet ==> others(m, before) == before)
    ensures Booked(start, after, erased + [m], turns + [Turn(m, before, others(m, before), after)],
                   Plus(counts, outcome.counts), others, quiet)
  {
    var t := Turn(m, before, others(m, before), after);
    TurnSnoc(turns, erased, t);
    ChainSnoc(start, turns, t, others);
    if quiet { TurnPurges(start, before, after, erased, counts, m, outcome.counts); }
  }

  lemma NothingBooked(db: Db, others: (Id, Db) -> Db, quiet: bool)
    requires Linked(db)
    ensures Booked(db, db, [], [], NONE, others, quiet)
  {
    RestoringNobody(db);
    assert Members([]) == {};
  }

  lemma NoneBooked(start: Db, before: Db, after: Db, erased: seq<Id>, turns: seq<Turn>, counts: Counts,
                   others: (Id, Db) -> Db, quiet: bool)
    requires Booked(start, before, erased, turns, counts, others, quiet) && Erased(before, after, {}, NONE)
    ensures Booked(start, after, erased, turns, counts, others, quiet)
  {
    WithoutNobody(before);
    ChainOn(start, turns, before, after, others);
    if quiet { ErasedThenNothing(start, before, after, Members(erased), counts); }
  }

  lemma WithoutNobody(db: Db)
    ensures SameRows(db, Without(db, {}))
  {
    assert Lost(db, {}) == {};
  }

  const NONE := Counts(0, 0, 0)

  function Members(xs: seq<Id>): set<Id> {
    set x | x in xs
  }

  /** The same rows, but for mentors restored in the meantime. */
  predicate SameRows(a: Db, b: Db) {
    && a.mentors.Keys == b.mentors.Keys && a.tags == b.tags && a.slugs == b.slugs
    && a.requests == b.requests && a.reviews == b.reviews && a.invitations == b.invitations
  }

  /** Exactly these mentors are gone, with as many rows as counted; all that is
      attached to any other mentor is as before. */
  ghost predicate Erased(before: Db, after: Db, gone: set<Id>, c: Counts) {
    Linked(after) && Shrank(before, after, c) && SameRows(after, Without(before, gone))
  }

  function Restored(db: Db, ms: set<Id>): Db {
    db.(mentors := map m | m in db.mentors :: if m in ms then None else db.mentors[m])
  }

  lemma RestoringErasesNothing(db: Db, ms: set<Id>)
    requires Linked(db)
    ensures Erased(db, Restored(db, ms), {}, NONE)
  {
    assert Lost(db, {}) == {};
    assert SameRows(Restored(db, ms), Without(db, {}));
  }

  lemma RestoringNobody(db: Db)
    requires Linked(db)
    ensures Erased(db, db, {}, NONE)
  {
    assert Restored(db, {}) == db;
    RestoringErasesNothing(db, {});
  }

  lemma ErasedBy(db: Db, m: Id)
    requires Linked(db)
    ensures Erased(db, Without(db, {m}), {m}, CountsOf(db, m))
  {
    PurgeErasesTheReach(db, m);
    CountsAreRowsRemoved(db, m);
  }

  lemma LostTwice(a: Db, b: Db, gone: set<Id>, more: set<Id>)
    requires SameRows(b, Without(a, gone))
    ensures Lost(b, more) == Lost(a, gone + more) - Lost(a, gone)
  {
  }

  lemma ClearedTwice(a: Db, b: Db, gone: set<Id>, more: set<Id>)
    requires SameRows(b, Without(a, gone))
    ensures SameRows(Without(b, more), Without(a, gone + more))
  {
    LostTwice(a, b, gone, more);
  }

  lemma ErasedTwice(a: Db, b: Db, c: Db, gone: set<Id>, n: Counts, more: set<Id>, k: Counts, both: set<Id>)
    requires Erased(a, b, gone, n) && Erased(b, c, more, k) && both == gone + more
    ensures Erased(a, c, both, Plus(n, k))
  {
    ClearedTwice(a, b, gone, more);
  }

  function Totals(counts: Counts, outcome: Erasure): Counts {
    if outcome.Purged? then Plus(counts, outcome.counts) else counts
  }

  function Tally(s: Summary, outcome: Erasure): (t: Summary)
    ensures t.counts == Totals(s.counts, outcome)
  {
    match outcome
    case Refused => s.(failed := s.failed + 1)
    case NotPurgeable => s.(skipped := s.skipped + 1)
    case Purged(counts) => s.(purged := s.purged + 1, counts := Plus(s.counts, counts))
  }

  ghost predicate Turned(before: Db, after: Db, m: Id, atDelete: Db, outcome: Erasure) {
    if outcome.Purged? then
      Linked(after) && outcome.counts == CountsOf(before, m) && TurnSound(Turn(m, before, atDelete, after))
    else
      Erased(before, after, {}, NONE)
  }

  lemma ErasedThenNothing(a: Db, b: Db, c: Db, gone: set<Id>, n: Counts)
    requires Erased(a, b, gone, n) && Erased(b, c, {}, NONE)
    ensures Erased(a, c, gone, n)
  {
    WithoutNobody(b);
  }

  lemma MembersSnoc(xs: seq<Id>, x: Id)
    ensures Members(xs + [x]) == Members(xs) + {x}
  {
  }

  lemma TurnPurges(start: Db, before: Db, after: Db, erased: seq<Id>, c: Counts, m: Id, counts: Counts)
    requires Erased(start, before, Members(erased), c) && Linked(before)
    requires after == Without(before, {m}) && counts == CountsOf(before, m)
    ensures Erased(start, after, Members(erased + [m]), Plus(c, counts))
  {
    ErasedBy(before, m);
    MembersSnoc(erased, m);
    ErasedTwice(start, before, after, Members(erased), c, {m}, counts, Members(erased + [m]));
  }

  function DeletedAt(db: Db, m: Id): int {
    if m in db.mentors && db.mentors[m].Some? then db.mentors[m].value else 0
  }

  ghost predicate Oldest(db: Db, profiles: seq<Id>) {
    forall i, j :: 0 <= i < j < |profiles| ==> DeletedAt(db, profiles[i]) <= DeletedAt(db, profiles[j])
  }

  predicate IsOldest(db: Db, m: Id, ms: set<Id>) {
    m in ms && forall n :: n in ms ==> DeletedAt(db, m) <= DeletedAt(db, n)
  }

  lemma {:induction false} OldestExists(db: Db, ms: set<Id>)
    requires ms != {}
    ensures exists m :: IsOldest(db, m, ms)
  {
    var m :| m in ms;
    var rest := ms - {m};
    if rest == {} {
      assert ms == {m} && IsOldest(db, m, ms);
    } else {
      OldestExists(db, rest);
      var k :| IsOldest(db, k, rest);
      assert forall n :: n in ms ==> n == m || n in rest;
      assert IsOldest(db, if DeletedAt(db, m) <= DeletedAt(db, k) then m else k, ms);
    }
  }
}
