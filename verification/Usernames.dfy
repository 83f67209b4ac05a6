/** The username namespace as committed rows: mentors.slug holds the live names,
    mentor_slug_history the retired ones that still redirect. Every operation is
    given here as ONE atomic change of the tables; UsernameRepository runs the
    same operations statement by statement on its own, and RenameProtocol runs
    them interleaved. */
module Usernames {
  import opened Prelude

  type Id = nat
  type Slug = string

  /** Fourteen days, in seconds. */
  const COOLDOWN: int := 14 * 24 * 60 * 60

  datatype Actor = ByMentor | ByAdmin

  /** What the service passes as the cooldown: admins have none. */
  function CooldownOf(actor: Actor): int {
    if actor == ByMentor then COOLDOWN else 0
  }

  datatype Mentor = Mentor(slug: Slug, changedAt: Option<int>, deletedAt: Option<int>)

  datatype Redirect = Redirect(mentor: Id, actor: Actor, at: int)

  /** `issued` remembers every id gen_random_uuid has handed out. */
  datatype Tables = Tables(mentors: map<Id, Mentor>, history: map<Slug, Redirect>, issued: set<Id>)

  predicate IsCurrent(db: Tables, slug: Slug) {
    exists m :: m in db.mentors && db.mentors[m].slug == slug
  }

  /** One owner per name: live slugs are unique and never also redirects, and a
      redirect always points at an existing mentor. */
  ghost predicate WellKept(db: Tables) {
    && db.mentors.Keys <= db.issued
    && (forall m, n :: m in db.mentors && n in db.mentors && db.mentors[m].slug == db.mentors[n].slug ==> m == n)
    && (forall m :: m in db.mentors ==> db.mentors[m].slug != "" && db.mentors[m].slug !in db.history)
    && (forall s :: s in db.history ==> db.history[s].mentor in db.mentors)
  }

  // ---- Trimming ----------------------------------------------------------------

  /** The redirect rows of one mentor. */
  function Own(history: map<Slug, Redirect>, m: Id): map<Slug, Redirect> {
    map s | s in history && history[s].mentor == m :: history[s]
  }

  predicate Outranked(own: map<Slug, Redirect>, s: Slug)
    requires s in own
  {
    exists a, b :: a in own && b in own && a != b && own[a].at > own[s].at && own[b].at > own[s].at
  }

  /** What the trim deletes: the rows outside the two newest. */
  function Surplus(own: map<Slug, Redirect>): set<Slug> {
    set s | s in own && Outranked(own, s)
  }

  /** The names a registration without a chosen username tries in turn. */
  function GeneratedNames(base: Slug): seq<Slug> {
    [base, base + "-2", base + "-3", base + "-4", base + "-5", base + "-6"]
  }

  // ---- The operations ----------------------------------------------------------

  datatype Verdict = NotFound | NoOp | Cooling(next: int) | Taken | Granted

  function CoolingUntil(row: Mentor, cooldown: int, now: int): Option<int> {
    if cooldown > 0 && row.changedAt.Some? && now < row.changedAt.value + cooldown
    then Some(row.changedAt.value + cooldown) else None
  }

  /** The answer a rename gets, in the order in which the transaction decides. */
  function Judge(db: Tables, m: Id, newSlug: Slug, cooldown: int, now: int): Verdict {
    if m !in db.mentors || db.mentors[m].deletedAt.Some? then NotFound
    else if db.mentors[m].slug == newSlug then NoOp
    else if CoolingUntil(db.mentors[m], cooldown, now).Some?
    then Cooling(CoolingUntil(db.mentors[m], cooldown, now).value)
    else if IsCurrent(db, newSlug) || (newSlug in db.history && db.history[newSlug].mentor != m) then Taken
    else Granted
  }

  function RenamedRow(row: Mentor, newSlug: Slug, actor: Actor, began: int): Mentor {
    row.(slug := newSlug, changedAt := if actor == ByMentor then Some(began) else row.changedAt)
  }

  function Renamed(db: Tables, m: Id, newSlug: Slug, actor: Actor, began: int, stamp: int): Tables
    requires m in db.mentors
  {
    var retired := (db.history - {newSlug})[db.mentors[m].slug := Redirect(m, actor, stamp)];
    db.(mentors := db.mentors[m := RenamedRow(db.mentors[m], newSlug, actor, began)],
        history := retired - Surplus(Own(retired, m)))
  }

  function Registered(db: Tables, m: Id, slug: Slug): Tables {
    db.(mentors := db.mentors[m := Mentor(slug, None, None)], issued := db.issued + {m})
  }

  /** Dropping the mentor row cascades into its redirects. */
  function Erased(db: Tables, m: Id): Tables {
    db.(mentors := db.mentors - {m}, history := db.history - Own(db.history, m).Keys)
  }

  datatype Op =
    | Rename(mentor: Id, newSlug: Slug, actor: Actor, now: int, began: int, stamp: int)
    | Register(mentor: Id, slug: Slug)
    | SoftDelete(mentor: Id, at: int)
    | Restore(mentor: Id)
    | Purge(mentor: Id)

  /** When the operation goes through. `now` is the service clock read before the
      transaction began; `stamp` is clock_timestamp() and later than any redirect. */
  ghost predicate Allowed(db: Tables, op: Op) {
    match op
    case Rename(m, newSlug, actor, now, began, stamp) =>
      && Judge(db, m, newSlug, CooldownOf(actor), now) == Granted
      && newSlug != ""
      && now <= began
      && (forall s :: s in Own(db.history, m) ==> Own(db.history, m)[s].at < stamp)
    case Register(m, slug) => m !in db.issued && slug != "" && !IsCurrent(db, slug) && slug !in db.history
    case SoftDelete(m, _) => m in db.mentors && db.mentors[m].deletedAt.None?
    case Restore(m) => m in db.mentors && db.mentors[m].deletedAt.Some?
    case Purge(m) => m in db.mentors && db.mentors[m].deletedAt.Some?
  }

  function Apply(db: Tables, op: Op): Tables
    requires !op.Register? ==> op.mentor in db.mentors
  {
    match op
    case Rename(m, newSlug, actor, _, began, stamp) => Renamed(db, m, newSlug, actor, began, stamp)
    case Register(m, slug) => Registered(db, m, slug)
    case SoftDelete(m, at) => db.(mentors := db.mentors[m := db.mentors[m].(deletedAt := Some(at))])
    case Restore(m) => db.(mentors := db.mentors[m := db.mentors[m].(deletedAt := None)])
    case Purge(m) => Erased(db, m)
  }

  /** A history of commits: each operation was allowed where it committed. */
  ghost predicate Legal(db: Tables, ops: seq<Op>)
    decreases |ops|, 0
  {
    ops == [] || (Legal(db, ops[..|ops| - 1]) && Allowed(Replay(db, ops[..|ops| - 1]), ops[|ops| - 1]))
  }

  ghost function Replay(db: Tables, ops: seq<Op>): Tables
    requires Legal(db, ops)
    decreases |ops|, 1
  {
    if ops == [] then db else Apply(Replay(db, ops[..|ops| - 1]), ops[|ops| - 1])
  }

  // ---- One owner per name --------------------------------------------------------

  lemma RenameKeepsWellKept(db: Tables, m: Id, newSlug: Slug, actor: Actor, now: int, began: int, stamp: int)
    requires WellKept(db) && Judge(db, m, newSlug, CooldownOf(actor), now) == Granted && newSlug != ""
    ensures WellKept(Renamed(db, m, newSlug, actor, began, stamp))
  {
    var after := Renamed(db, m, newSlug, actor, began, stamp);
    assert forall n :: n in after.mentors && n != m ==> db.mentors[n].slug != newSlug;
    forall n | n in after.mentors
      ensures after.mentors[n].slug != "" && after.mentors[n].slug !in after.history
    {
      if n != m { assert db.mentors[n].slug != db.mentors[m].slug; }
    }
  }

  lemma {:induction false} LegalKeepsWellKept(db: Tables, ops: seq<Op>)
    requires WellKept(db) && Legal(db, ops)
    ensures WellKept(Replay(db, ops))
  {
    if ops != [] {
      var k := |ops| - 1;
      LegalKeepsWellKept(db, ops[..k]);
      var last := ops[k];
      if last.Rename? {
        RenameKeepsWellKept(Replay(db, ops[..k]), last.mentor, last.newSlug, last.actor, last.now, last.began,
          last.stamp);
      }
    }
  }

  // ---- What one operation leaves alone -------------------------------------------

  lemma OthersUntouched(db: Tables, op: Op, m: Id)
    requires WellKept(db) && Allowed(db, op) && op.mentor != m
    ensures Own(Apply(db, op).history, m) == Own(db.history, m)
  {
    if op.Rename? {
      assert op.newSlug !in Own(db.history, m) && db.mentors[op.mentor].slug !in db.history;
    }
  }

  /** The names an operation gives or takes. */
  function Names(db: Tables, op: Op): set<Slug>
    requires op.Rename? ==> op.mentor in db.mentors
  {
    match op
    case Rename(m, newSlug, _, _, _, _) => {db.mentors[m].slug, newSlug}
    case Register(_, slug) => {slug}
    case _ => {}
  }

  /** Trims, purges and deletions only ever free names. */
  lemma FreeNamesStayFree(db: Tables, op: Op, slug: Slug)
    requires WellKept(db) && Allowed(db, op) && slug !in Names(db, op)
    ensures !IsCurrent(db, slug) ==> !IsCurrent(Apply(db, op), slug)
    ensures slug !in db.history ==> slug !in Apply(db, op).history
  {
    if !IsCurrent(db, slug) {
      forall m | m in Apply(db, op).mentors ensures Apply(db, op).mentors[m].slug != slug {
        assert m in db.mentors ==> db.mentors[m].slug != slug;
      }
    }
  }
}
