/** The repository and service methods, statement by statement on their own: each is
    proved to make the one atomic change, or give the one answer, of Usernames. */
module UsernameRepository {
  import opened Prelude
  import opened Usernames
  import opened UsernameHistory
  import RenameProtocol

  // ---- Lock order ------------------------------------------------------------------

  ghost predicate Ascending(xs: seq<Slug>) {
    forall i, j :: 0 <= i < j < |xs| ==> Below(xs[i], xs[j])
  }

  /** sort.Strings on distinct strings. */
  function Inserted(x: Slug, xs: seq<Slug>): (ys: seq<Slug>)
    ensures forall y :: y in ys <==> y == x || y in xs
    ensures Ascending(xs) && x !in xs ==> Ascending(ys)
  {
    if xs == [] then [x]
    else if Below(x, xs[0]) then
      assert Ascending(xs) ==> Ascending([x] + xs) by { BelowEach(x, xs); }
      [x] + xs
    else
      var rest := Inserted(x, xs[1..]);
      assert xs == [xs[0]] + xs[1..];
      assert Ascending(xs) && x !in xs ==> Ascending([xs[0]] + rest) by {
        if Ascending(xs) && x !in xs { BelowRest(x, xs, rest); }
      }
      [xs[0]] + rest
  }

  lemma BelowRest(x: Slug, xs: seq<Slug>, rest: seq<Slug>)
    requires xs != [] && Ascending(xs) && x != xs[0] && !Below(x, xs[0])
    requires Ascending(rest) && forall y :: y in rest ==> y == x || y in xs[1..]
    ensures Ascending([xs[0]] + rest)
  {
    BelowTotal(x, xs[0]);
    forall i | 0 <= i < |rest| ensures Below(xs[0], rest[i]) {
      assert rest[i] in rest;
    }
  }

  lemma BelowEach(x: Slug, xs: seq<Slug>)
    requires xs != [] && Below(x, xs[0])
    ensures Ascending(xs) ==> forall i :: 0 <= i < |xs| ==> Below(x, xs[i])
  {
    if Ascending(xs) {
      forall i | 0 <= i < |xs| ensures Below(x, xs[i]) {
        if i > 0 { BelowTransitive(x, xs[0], xs[i]); }
      }
    }
  }

  function Sorted(xs: seq<Slug>): (ys: seq<Slug>)
    ensures forall y :: y in ys <==> y in xs
    ensures Distinct(xs) ==> Ascending(ys)
  {
    if xs == [] then []
    else
      assert xs == [xs[0]] + xs[1..];
      Inserted(xs[0], Sorted(xs[1..]))
  }

  /** Locks are taken one by one, each slug once, in string order. */
  method LockSlugs(slugs: seq<Slug>) returns (taken: seq<Slug>)
    ensures Ascending(taken)
    ensures forall s :: s in taken <==> s in slugs && s != ""
  {
    var seen: set<Slug> := {};
    var unique: seq<Slug> := [];
    for i := 0 to |slugs|
      invariant Distinct(unique)
      invariant forall s :: s in unique <==> s in seen
      invariant forall s :: s in seen <==> s in slugs[..i] && s != ""
    {
      if slugs[i] == "" || slugs[i] in seen { continue; }
      seen := seen + {slugs[i]};
      unique := unique + [slugs[i]];
    }
    assert slugs[..|slugs|] == slugs;
    unique := Sorted(unique);
    taken := [];
    for i := 0 to |unique|
      invariant taken == unique[..i]
    {
      taken := taken + [unique[i]];
    }
  }

  /** An ascending list is determined by its members. */
  lemma {:induction false} AscendingUnique(xs: seq<Slug>, ys: seq<Slug>)
    requires Ascending(xs) && Ascending(ys)
    requires forall s :: s in xs <==> s in ys
    ensures xs == ys
  {
    assert ys != [] ==> ys[0] in ys;
    if xs != [] {
      assert xs[0] in ys && ys != [] && ys[0] in xs;
      var i :| 0 <= i < |ys| && ys[i] == xs[0];
      var j :| 0 <= j < |xs| && xs[j] == ys[0];
      if i > 0 && j > 0 { BelowAsymmetric(xs[0], ys[0]); }
      assert xs[0] == ys[0];
      forall s ensures s in xs[1..] <==> s in ys[1..] {
        TailMembers(xs, s);
        TailMembers(ys, s);
      }
      AscendingUnique(xs[1..], ys[1..]);
      assert xs == [xs[0]] + xs[1..] && ys == [ys[0]] + ys[1..];
    }
  }

  lemma TailMembers(xs: seq<Slug>, s: Slug)
    requires Ascending(xs) && xs != []
    ensures s in xs[1..] <==> s in xs && s != xs[0]
  {
    if s in xs[1..] {
      var i :| 1 <= i < |xs| && xs[i] == s;
      BelowAsymmetric(xs[0], xs[i]);
    }
  }

  /** What LockSlugs takes for a rename is the order the interleaved protocol uses. */
  lemma LockOrderIsLockSlugs(a: Slug, b: Slug, taken: seq<Slug>)
    requires a != b && a != "" && b != ""
    requires Ascending(taken) && forall s :: s in taken <==> s in [a, b] && s != ""
    ensures taken == RenameProtocol.LockOrder(a, b)
  {
    BelowTotal(a, b);
    AscendingUnique(taken, RenameProtocol.LockOrder(a, b));
  }

  // ---- The repository -----------------------------------------------------------------

  datatype Change = Changed(previous: Slug) | Missing | Wait(next: int) | Unavailable | Conflict

  datatype Creation = Created(mentor: Id, slug: Slug) | ChosenTaken | NoFreeSlug

  function Answer(db: Tables, m: Id, newSlug: Slug, cooldown: int, now: int): Change {
    match Judge(db, m, newSlug, cooldown, now)
    case NotFound => Missing
    case NoOp => Changed(newSlug)
    case Cooling(next) => Wait(next)
    case Taken => Unavailable
    case Granted => if db.mentors[m].slug in db.history then Conflict else Changed(db.mentors[m].slug)
  }

  /** The tables after a rename request: changed only when it goes through. */
  function AfterRename(db: Tables, m: Id, newSlug: Slug, actor: Actor, cooldown: int, now: int, began: int,
      stamp: int): Tables {
    if Judge(db, m, newSlug, cooldown, now) == Granted && db.mentors[m].slug !in db.history
    then Renamed(db, m, newSlug, actor, began, stamp) else db
  }

  /** In well-kept tables nobody is ever told of a history conflict, and a request
      leaves the tables well kept. */
  lemma RenameNeverConflicts(db: Tables, m: Id, newSlug: Slug, actor: Actor, now: int, began: int, stamp: int)
    requires WellKept(db) && newSlug != ""
    ensures Answer(db, m, newSlug, CooldownOf(actor), now) != Conflict
    ensures WellKept(AfterRename(db, m, newSlug, actor, CooldownOf(actor), now, began, stamp))
  {
    if Judge(db, m, newSlug, CooldownOf(actor), now) == Granted {
      RenameKeepsWellKept(db, m, newSlug, actor, now, began, stamp);
    }
  }

  /** What a caller wants to see, and which profiles have a public status ('active' or
      'inactive') and which are visible. */
  datatype FilterOptions = FilterOptions(onlyVisible: bool, allowAnyStatus: bool, includeDeleted: bool)
  datatype Publicity = Publicity(public: set<Id>, visible: set<Id>)

  /** The first of the names nobody uses, live or as a redirect. */
  function FirstFree(db: Tables, names: seq<Slug>): Option<Slug> {
    if names == [] then None
    else if !IsCurrent(db, names[0]) && names[0] !in db.history then Some(names[0])
    else FirstFree(db, names[1..])
  }

  /** Somebody is reached by this name. */
  ghost predicate Owned(db: Tables, name: Slug) {
    exists n :: Owns(db, n, name)
  }

  ghost predicate FirstOf(db: Tables, names: seq<Slug>, i: nat) {
    i < |names| && !Owned(db, names[i]) && forall j :: 0 <= j < i ==> Owned(db, names[j])
  }

  lemma OwnedIff(db: Tables, name: Slug)
    ensures Owned(db, name) <==> IsCurrent(db, name) || name in db.history
  {
    if name in db.history { assert Owns(db, db.history[name].mentor, name); }
    if IsCurrent(db, name) {
      var m :| m in db.mentors && db.mentors[m].slug == name;
      assert Owns(db, m, name);
    }
  }

  /** Registration gets the first name in its list that leads to nobody, and none exactly
      when they all lead to somebody. */
  lemma {:induction false} FirstFreeIsFirst(db: Tables, names: seq<Slug>)
    ensures FirstFree(db, names).None? <==> forall i :: 0 <= i < |names| ==> Owned(db, names[i])
    ensures FirstFree(db, names).Some? ==>
              exists i: nat :: FirstOf(db, names, i) && names[i] == FirstFree(db, names).value
  {
    if names != [] {
      OwnedIff(db, names[0]);
      FirstFreeIsFirst(db, names[1..]);
      if Owned(db, names[0]) {
        assert names == [names[0]] + names[1..];
        if FirstFree(db, names).Some? {
          var i: nat :| FirstOf(db, names[1..], i) && names[1..][i] == FirstFree(db, names).value;
          FirstOfNext(db, names, i);
        }
      } else {
        assert FirstOf(db, names, 0);
      }
    }
  }

  lemma FirstOfNext(db: Tables, names: seq<Slug>, i: nat)
    requires names != [] && Owned(db, names[0]) && FirstOf(db, names[1..], i)
    ensures FirstOf(db, names, i + 1) && names[i + 1] == names[1..][i]
  {
    forall j | 0 <= j < i + 1 ensures Owned(db, names[j]) {
      if j > 0 { assert names[j] == names[1..][j - 1]; }
    }
  }

  /** A name is current or a redirect exactly when registering it would give it two
      owners. */
  lemma TakenIffTwoOwners(db: Tables, id: Id, name: Slug)
    requires WellKept(db) && id !in db.issued && name != ""
    ensures IsCurrent(db, name) || name in db.history <==> !WellKept(Registered(db, id, name))
  {
    var after := Registered(db, id, name);
    assert after.mentors[id].slug == name;
    if IsCurrent(db, name) {
      var m :| m in db.mentors && db.mentors[m].slug == name;
      assert m in after.mentors && m != id && after.mentors[m].slug == name;
    }
  }

  class MentorRepository {
    var mentors: map<Id, Mentor>
    var history: map<Slug, Redirect>
    var issued: set<Id>

    function Tables(): Tables
      reads this
    {
      Usernames.Tables(mentors, history, issued)
    }

    /** The transaction of a rename. `began` is NOW(), `stamp` clock_timestamp(). */
    method ChangeSlug(m: Id, newSlug: Slug, actor: Actor, cooldown: int, now: int, began: int, stamp: int)
      returns (r: Change)
      modifies this
      ensures r == Answer(old(Tables()), m, newSlug, cooldown, now)
      ensures Tables() == AfterRename(old(Tables()), m, newSlug, actor, cooldown, now, began, stamp)
    {
      if m !in mentors || mentors[m].deletedAt.Some? { return Missing; }
      var oldSlug, slugChangedAt := mentors[m].slug, mentors[m].changedAt;
      if oldSlug == newSlug { return Changed(oldSlug); }
      var locks := LockSlugs([oldSlug, newSlug]);
      if cooldown > 0 && slugChangedAt.Some? {
        var next := slugChangedAt.value + cooldown;
        if now < next { return Wait(next); }
      }
      var taken := IsCurrent(Tables(), newSlug) || (newSlug in history && history[newSlug].mentor != m);
      if taken { return Unavailable; }
      var before := history;
      if newSlug in history && history[newSlug].mentor == m {
        history := history - {newSlug};
      }
      if oldSlug in history {
        history := before;
        return Conflict;
      }
      history := history[oldSlug := Redirect(m, actor, stamp)];
      history := history - Surplus(Own(history, m));
      if actor == ByMentor {
        mentors := mentors[m := mentors[m].(slug := newSlug, changedAt := Some(began))];
      } else {
        mentors := mentors[m := mentors[m].(slug := newSlug)];
      }
      assert before - {newSlug} == if newSlug in before then before - {newSlug} else before;
      return Changed(oldSlug);
    }

    /** Taken is exactly when registering the name would give it two owners: TakenIffTwoOwners. */
    method ClaimSlug(candidate: Slug) returns (taken: bool)
      ensures taken <==> IsCurrent(Tables(), candidate) || candidate in history
    {
      var locks := LockSlugs([candidate]);
      taken := IsCurrent(Tables(), candidate) || candidate in history;
    }

    /** Registration: a chosen name is taken as it is, a generated one disambiguated.
        `base` is GenerateMentorSlug's name-<legacy id>, `id` a fresh uuid. */
    method CreateMentor(base: Slug, chosen: Option<Slug>, id: Id) returns (r: Creation)
      requires base != "" && id !in issued
      modifies this
      ensures var names := if chosen.Some? && chosen.value != "" then [chosen.value] else GeneratedNames(base);
              var free := FirstFree(old(Tables()), names);
              if free.Some? then r == Created(id, free.value) && Tables() == Registered(old(Tables()), id, free.value)
              else Tables() == old(Tables()) && r == if |names| == 1 then ChosenTaken else NoFreeSlug
      ensures r.Created? ==> mentors == old(mentors)[id := Mentor(r.slug, None, None)] && history == old(history)
    {
      var mentorSlug;
      if chosen.Some? && chosen.value != "" {
        mentorSlug := chosen.value;
        var taken := ClaimSlug(mentorSlug);
        assert FirstFree(Tables(), [mentorSlug]) == if taken then None else Some(mentorSlug);
        if taken { return ChosenTaken; }
      } else {
        mentorSlug := base;
        var attempt := 2;
        ghost var names := GeneratedNames(base);
        while true
          invariant 2 <= attempt <= 7 && Tables() == old(Tables())
          invariant mentorSlug == names[attempt - 2]
          invariant FirstFree(Tables(), names) == FirstFree(Tables(), names[attempt - 2..])
          decreases 7 - attempt
        {
          var taken := ClaimSlug(mentorSlug);
          assert names[attempt - 2..][0] == mentorSlug && names[attempt - 2..][1..] == names[attempt - 1..];
          if !taken {
            assert FirstFree(Tables(), names) == Some(mentorSlug);
            break;
          }
          if attempt > 6 { return NoFreeSlug; }
          mentorSlug := base + "-" + [(attempt as char) + '0'];
          attempt := attempt + 1;
        }
      }
      mentors := mentors[id := Mentor(mentorSlug, None, None)];
      issued := issued + {id};
      return Created(id, mentorSlug);
    }

    method IsSlugTaken(slug: Slug, exclude: Option<Id>) returns (taken: bool)
      ensures taken == UsernameHistory.IsSlugTaken(Tables(), slug, exclude)
    {
      taken := IsCurrent(Tables(), slug)
            || (slug in history && (exclude.None? || history[slug].mentor != exclude.value));
    }

    /** Find a live row by name. */
    method FetchBySlug(slug: Slug) returns (m: Option<Id>)
      ensures m.Some? ==> m.value in mentors && mentors[m.value].slug == slug
      ensures m.None? ==> !IsCurrent(Tables(), slug)
    {
      if k :| k in mentors && mentors[k].slug == slug {
        m := Some(k);
      } else {
        m := None;
      }
    }

    method FilterSingle(m: Id, opts: FilterOptions, state: Publicity) returns (kept: bool)
      ensures kept <==> && m in mentors
                        && (mentors[m].deletedAt.None? || opts.includeDeleted)
                        && (m in state.public || opts.allowAnyStatus)
                        && (m in state.visible || !opts.onlyVisible)
    {
      if m !in mentors { return false; }
      if !opts.includeDeleted && mentors[m].deletedAt.Some? { return false; }
      if !opts.allowAnyStatus && m !in state.public { return false; }
      if opts.onlyVisible && m !in state.visible { return false; }
      return true;
    }

    /** The page of a name: its owner, found directly or through one redirect, if the
        options show that profile. */
    method GetBySlug(slug: Slug, opts: FilterOptions, state: Publicity) returns (m: Option<Id>)
      requires WellKept(Tables())
      ensures forall n: Id :: m == Some(n) <==>
                && Owns(Tables(), n, slug) && n in mentors
                && (mentors[n].deletedAt.None? || opts.includeDeleted)
                && (n in state.public || opts.allowAnyStatus)
                && (n in state.visible || !opts.onlyVisible)
    {
      m := FetchBySlug(slug);
      if m.None? && slug in history {
        m := Some(history[slug].mentor);
      }
      if m.Some? {
        var kept := FilterSingle(m.value, opts, state);
        if !kept { m := None; }
      }
    }
  }

  // ---- The service ---------------------------------------------------------------------

  class UsernameService {
    const repo: MentorRepository

    constructor (repo: MentorRepository)
      ensures this.repo == repo
    {
      this.repo := repo;
    }

    method CheckAvailability(username: Slug, wellFormed: bool, m: Option<Id>) returns (r: Availability)
      ensures r == UsernameHistory.CheckAvailability(repo.Tables(), username, wellFormed, m)
      ensures m.Some? && m.value in repo.mentors && repo.mentors[m.value].deletedAt.None? && wellFormed ==>
                forall now :: r == Free <==>
                  Judge(repo.Tables(), m.value, username, CooldownOf(ByAdmin), now) in {NoOp, Granted}
    {
      if !wellFormed { return Malformed; }
      if m.Some? && m.value in repo.mentors && repo.mentors[m.value].deletedAt.None?
         && repo.mentors[m.value].slug == username {
        return Free;
      }
      var taken := repo.IsSlugTaken(username, m);
      return if taken then InUse else Free;
    }

    /** The dashboard's answer is the one the transaction's own check would give to
        any other free name. */
    method Status(m: Id, now: int) returns (r: Option<(Slug, Option<int>)>)
      ensures r.Some? <==> m in repo.mentors && repo.mentors[m].deletedAt.None?
      ensures r.Some? ==> r.value.0 == repo.mentors[m].slug
      ensures r.Some? ==> forall other :: other != r.value.0 ==>
                (r.value.1.Some? <==> Answer(repo.Tables(), m, other, CooldownOf(ByMentor), now).Wait?)
                && (r.value.1.Some? ==>
                      Answer(repo.Tables(), m, other, CooldownOf(ByMentor), now) == Wait(r.value.1.value))
    {
      if m !in repo.mentors || repo.mentors[m].deletedAt.Some? { return None; }
      var lastChange := repo.mentors[m].changedAt;
      var next := None;
      if lastChange.Some? && now < lastChange.value + COOLDOWN {
        next := Some(lastChange.value + COOLDOWN);
      }
      return Some((repo.mentors[m].slug, next));
    }

    /** The pre-checks are shortcuts only: the outcome is the transaction's. */
    method Change(m: Id, username: Slug, actor: Actor, now: int, began: int, stamp: int) returns (r: Change)
      modifies repo
      ensures r == Answer(old(repo.Tables()), m, username, CooldownOf(actor), now)
      ensures repo.Tables() == AfterRename(old(repo.Tables()), m, username, actor, CooldownOf(actor), now, began, stamp)
    {
      if m !in repo.mentors || repo.mentors[m].deletedAt.Some? { return Missing; }
      if repo.mentors[m].slug == username { return Changed(username); }
      var cooldown := 0;
      if actor == ByMentor {
        cooldown := COOLDOWN;
        var lastChange := repo.mentors[m].changedAt;
        if lastChange.Some? && now < lastChange.value + COOLDOWN {
          return Wait(lastChange.value + COOLDOWN);
        }
      }
      r := repo.ChangeSlug(m, username, actor, cooldown, now, began, stamp);
    }
  }
}
