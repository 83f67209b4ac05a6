/** Token submissions, legacy submissions and profile deletions interleaved statement
    by statement under Read Committed, with every other write to the review tables
    between any two of them. */
module ReviewProtocol {
  import opened Prelude
  import opened Reviews

  type Tid = nat

  datatype Job =
    | ByToken(hash: Hash, content: string, review: Id)
    | ByRequest(request: Id, content: string, review: Id)
    | Deletion(mentor: Id)

  /** The statement a transaction runs next. Revoking works through the rows its
      snapshot found, in any order. */
  datatype Pc = Claiming | Checking | Inserting | Marking | Reading | Revoking(todo: set<Hash>) | Committing

  /** `rows` are the invitations written and locked, `snapshot` those the revoking
      statement found. */
  datatype Txn = Txn(job: Job, pc: Pc, began: int, request: Id, rows: set<Hash>, snapshot: set<Hash>)

  datatype State = State(db: Tables, txns: map<Tid, Txn>, clock: int, log: seq<Op>)

  predicate IsSubmission(x: Txn) {
    !x.job.Deletion?
  }

  function Put(s: State, t: Tid, x: Txn): State {
    s.(txns := s.txns[t := x])
  }

  function End(s: State, t: Tid): State {
    s.(txns := s.txns - {t})
  }

  function Fresh(job: Job, now: int): Txn {
    match job
    case ByToken(_, _, _) => Txn(job, Claiming, now, 0, {}, {})
    case ByRequest(request, _, _) => Txn(job, Checking, now, request, {}, {})
    case Deletion(_) => Txn(job, Marking, now, 0, {}, {})
  }

  function OpOf(x: Txn): Op {
    match x.job
    case ByToken(h, content, review) => Submit(review, x.request, content, Some(h))
    case ByRequest(_, content, review) => Submit(review, x.request, content, None)
    case Deletion(m) => Delete(m, x.rows)
  }

  /** The commit publishes exactly the rows the transaction wrote. */
  function View(db: Tables, x: Txn): Tables {
    match x.job
    case ByToken(_, content, review) =>
      db.(reviews := db.reviews[review := Review(x.request, content)],
          invitations := map h | h in db.invitations ::
            if h in x.rows then db.invitations[h].(consumed := true) else db.invitations[h])
    case ByRequest(_, content, review) => db.(reviews := db.reviews[review := Review(x.request, content)])
    case Deletion(m) => db.(mentors := db.mentors[m := true], invitations := Revoke(db.invitations, x.rows))
  }

  /** One statement of transaction t. */
  function After(s: State, t: Tid): State
    requires t in s.txns
  {
    var x := s.txns[t];
    match x.pc
    case Claiming =>
      if !x.job.ByToken? || !Live(s.db, x.job.hash, x.began) then End(s, t)
      else Put(s, t, x.(pc := Checking, request := s.db.invitations[x.job.hash].request, rows := {x.job.hash}))
    case Checking => if Eligible(s.db, x.request, x.job.ByRequest?) then Put(s, t, x.(pc := Inserting)) else End(s, t)
    case Inserting => if Reviewed(s.db, x.request) then End(s, t) else Put(s, t, x.(pc := Committing))
    case Marking =>
      if x.job.Deletion? && x.job.mentor in s.db.mentors && !s.db.mentors[x.job.mentor]
      then Put(s, t, x.(pc := Reading))
      else End(s, t)
    case Reading =>
      if !x.job.Deletion? then s
      else
        var found := Outstanding(s.db, x.job.mentor);
        Put(s, t, x.(pc := Revoking(found), snapshot := found))
    case Revoking(todo) => if todo == {} then Put(s, t, x.(pc := Committing)) else s
    case Committing => End(s.(db := View(s.db, x), log := s.log + [OpOf(x)]), t)
  }

  /** The revoking statement reaches one row of its snapshot, re-judging it as it now
      is committed. */
  function AfterRow(s: State, t: Tid, h: Hash): State
    requires t in s.txns && s.txns[t].pc.Revoking?
  {
    var x := s.txns[t];
    var revoked := if h in s.db.invitations && Unspent(s.db.invitations[h]) then {h} else {};
    Put(s, t, x.(pc := Revoking(x.pc.todo - {h}), rows := x.rows + revoked))
  }

  // ---- Waiting ------------------------------------------------------------------------

  /** A row lock on the invitation claimed, the uncommitted entry of the unique index
      on reviews, or the row lock on the mentor being deleted. */
  predicate Waits(s: State, t: Tid, u: Tid) {
    t in s.txns && u in s.txns && t != u &&
    var x, y := s.txns[t], s.txns[u];
    match x.pc
    case Claiming => x.job.ByToken? && Live(s.db, x.job.hash, x.began) && x.job.hash in y.rows
    case Inserting => IsSubmission(y) && y.pc.Committing? && y.request == x.request
    case Marking => x.job.Deletion? && y.job.Deletion? && !y.pc.Marking? && y.job.mentor == x.job.mentor
    case _ => false
  }

  predicate WaitsForRow(s: State, t: Tid, u: Tid, h: Hash) {
    u in s.txns && t != u && h in s.txns[u].rows && h in s.db.invitations && Unspent(s.db.invitations[h])
  }

  ghost predicate Blocked(s: State, t: Tid) {
    exists u :: Waits(s, t, u)
  }

  ghost predicate RowBlocked(s: State, t: Tid, h: Hash) {
    exists u :: WaitsForRow(s, t, u, h)
  }

  // ---- Runs -----------------------------------------------------------------------------

  datatype Event =
    | Begin(t: Tid, job: Job) | Advance(t: Tid) | Row(t: Tid, hash: Hash) | Abort(t: Tid)
    | Write(op: Op) | Tick(d: nat)

  /** Single-statement writers: minting, status changes, restores, revoking legacy links. */
  predicate Autocommit(op: Op) {
    !op.Submit? && !op.Delete?
  }

  /** Review ids are generated by the database and never repeat. */
  predicate NewReview(s: State, job: Job) {
    job.Deletion? ||
    (job.review !in s.db.reviews &&
     forall u :: u in s.txns && IsSubmission(s.txns[u]) ==> s.txns[u].job.review != job.review)
  }

  ghost predicate Next(s: State, e: Event, s': State) {
    match e
    case Begin(t, job) => t !in s.txns && NewReview(s, job) && s' == Put(s, t, Fresh(job, s.clock))
    case Advance(t) => t in s.txns && !Blocked(s, t) && s' == After(s, t)
    case Row(t, h) =>
      t in s.txns && s.txns[t].pc.Revoking? && h in s.txns[t].pc.todo && !RowBlocked(s, t, h) && s' == AfterRow(s, t, h)
    case Abort(t) => t in s.txns && s' == End(s, t)
    case Write(op) => Autocommit(op) && Allowed(s.db, op) && s' == s.(db := Apply(s.db, op), log := s.log + [op])
    case Tick(d) => s' == s.(clock := s.clock + d)
  }

  ghost predicate Initial(s: State) {
    WellKept(s.db) && s.txns == map[] && s.log == []
  }

  ghost predicate Run(states: seq<State>, events: seq<Event>) {
    |states| == |events| + 1 && Initial(states[0]) &&
    forall i :: 0 <= i < |events| ==> Next(states[i], events[i], states[i + 1])
  }

  // ---- The invariant ----------------------------------------------------------------------

  ghost predicate SubmissionSound(db: Tables, x: Txn)
    requires IsSubmission(x)
  {
    && x.job.review !in db.reviews
    && (x.job.ByRequest? ==> x.request == x.job.request && x.rows == {})
    && match x.pc
       case Claiming => x.job.ByToken? && x.rows == {}
       case Checking | Inserting | Committing =>
         && (x.job.ByToken? ==> x.rows == {x.job.hash} && Live(db, x.job.hash, x.began)
                                && db.invitations[x.job.hash].request == x.request)
         && (!x.pc.Checking? ==> x.request in db.requests)
         && (x.pc.Committing? ==> !Reviewed(db, x.request))
       case _ => false
  }

  /** Every row found is written, still to come, or was consumed in the meantime. */
  ghost predicate DeletionSound(db: Tables, x: Txn)
    requires x.job.Deletion?
  {
    var m := x.job.mentor;
    && (forall h :: h in x.rows || h in x.snapshot ==> Concerns(db, h, m))
    && (forall h :: h in x.rows ==> Unspent(db.invitations[h]))
    && (forall h :: h in x.snapshot ==> !db.invitations[h].revoked)
    && (!x.pc.Marking? ==> m in db.mentors && !db.mentors[m])
    && match x.pc
       case Marking | Reading => x.rows == {} && x.snapshot == {}
       case Revoking(todo) =>
         && x.rows + todo <= x.snapshot
         && forall h :: h in x.snapshot ==> h in x.rows || h in todo || db.invitations[h].consumed
       case Committing =>
         x.rows <= x.snapshot && forall h :: h in x.snapshot ==> h in x.rows || db.invitations[h].consumed
       case _ => false
  }

  ghost predicate Sound(db: Tables, x: Txn) {
    if x.job.Deletion? then DeletionSound(db, x) else SubmissionSound(db, x)
  }

  /** Two transactions never write the same row or index entry. */
  ghost predicate Apart(x: Txn, y: Txn) {
    && x.rows !! y.rows
    && (IsSubmission(x) && IsSubmission(y) ==>
          x.job.review != y.job.review && (x.pc.Committing? && y.pc.Committing? ==> x.request != y.request))
    && (x.job.Deletion? && y.job.Deletion? && !x.pc.Marking? && !y.pc.Marking? ==> x.job.mentor != y.job.mentor)
  }

  ghost predicate Inv(s: State) {
    && WellKept(s.db)
    && (forall t :: t in s.txns ==> Sound(s.db, s.txns[t]))
    && (forall t, u :: t in s.txns && u in s.txns && t != u ==> Apart(s.txns[t], s.txns[u]))
  }

  // ---- One statement --------------------------------------------------------------------------

  lemma SubmissionAdvances(s: State, t: Tid)
    requires t in s.txns && IsSubmission(s.txns[t]) && SubmissionSound(s.db, s.txns[t]) && Linked(s.db)
    requires !s.txns[t].pc.Committing?
    ensures t in After(s, t).txns ==>
              After(s, t).txns[t].job == s.txns[t].job && SubmissionSound(s.db, After(s, t).txns[t])
  {
  }

  lemma DeletionAdvances(s: State, t: Tid)
    requires WellKept(s.db) && t in s.txns && s.txns[t].job.Deletion? && DeletionSound(s.db, s.txns[t])
    requires !s.txns[t].pc.Committing?
    ensures t in After(s, t).txns ==>
              After(s, t).txns[t].job == s.txns[t].job && DeletionSound(s.db, After(s, t).txns[t])
  {
  }

  lemma StatementKeepsSound(s: State, t: Tid)
    requires WellKept(s.db) && t in s.txns && Sound(s.db, s.txns[t]) && !s.txns[t].pc.Committing?
    ensures After(s, t).db == s.db && After(s, t).txns - {t} == s.txns - {t}
    ensures After(s, t).log == s.log && After(s, t).clock == s.clock
    ensures t in After(s, t).txns ==> Sound(s.db, After(s, t).txns[t]) && After(s, t).txns[t].job == s.txns[t].job
  {
    if s.txns[t].job.Deletion? { DeletionAdvances(s, t); } else { SubmissionAdvances(s, t); }
  }

  lemma StatementStaysApart(s: State, t: Tid, u: Tid)
    requires t in s.txns && u in s.txns && t != u && !s.txns[t].pc.Committing?
    requires Sound(s.db, s.txns[t]) && Apart(s.txns[t], s.txns[u]) && !Waits(s, t, u)
    ensures t in After(s, t).txns ==> Apart(After(s, t).txns[t], s.txns[u])
  {
  }

  lemma AdvanceKeepsInv(s: State, t: Tid)
    requires Inv(s) && t in s.txns && !s.txns[t].pc.Committing? && !Blocked(s, t)
    ensures Inv(After(s, t))
  {
    var s' := After(s, t);
    StatementKeepsSound(s, t);
    forall u | u in s'.txns && u != t ensures u in s.txns && s'.txns[u] == s.txns[u] {
      assert u in s'.txns - {t} && (s'.txns - {t})[u] == s'.txns[u];
    }
    forall u | u in s'.txns && u != t && t in s'.txns
      ensures Apart(s'.txns[t], s'.txns[u]) && Apart(s'.txns[u], s'.txns[t])
    {
      assert !Waits(s, t, u);
      StatementStaysApart(s, t, u);
    }
  }

  lemma RowKeepsInv(s: State, t: Tid, h: Hash)
    requires Inv(s) && t in s.txns && s.txns[t].pc.Revoking? && h in s.txns[t].pc.todo && !RowBlocked(s, t, h)
    ensures Inv(AfterRow(s, t, h))
  {
    var s' := AfterRow(s, t, h);
    assert Sound(s.db, s.txns[t]);
    assert DeletionSound(s.db, s'.txns[t]);
    forall u | u in s'.txns && u != t ensures Apart(s'.txns[t], s'.txns[u]) && Apart(s'.txns[u], s'.txns[t]) {
      assert Apart(s.txns[t], s.txns[u]) && !WaitsForRow(s, t, u, h);
    }
  }

  // ---- Commits and other people's commits -----------------------------------------------------

  /** The statements of a transaction amount, at its commit, to one operation on the
      tables as they then are. */
  lemma CommitIsAtomic(db: Tables, x: Txn)
    requires WellKept(db) && Sound(db, x) && x.pc.Committing?
    ensures Allowed(db, OpOf(x)) && View(db, x) == Apply(db, OpOf(x))
  {
  }

  lemma UnreviewedStays(db: Tables, op: Op, request: Id)
    requires Allowed(db, op) && (op.Submit? ==> op.request != request) && !Reviewed(db, request)
    ensures !Reviewed(Apply(db, op), request)
  {
    forall r | r in Apply(db, op).reviews ensures Apply(db, op).reviews[r].request != request {
      if r in db.reviews { assert db.reviews[r].request != request; }
    }
  }

  /** A submission under way is not disturbed by a commit that spends another token and
      stores no review for its request. */
  lemma SubmissionUndisturbed(db: Tables, op: Op, x: Txn)
    requires IsSubmission(x) && SubmissionSound(db, x) && Allowed(db, op)
    requires op.Submit? ==> op.review != x.job.review && (op.via.Some? ==> op.via.value !in x.rows)
                            && (x.pc.Committing? ==> op.request != x.request)
    requires op.Delete? ==> op.revoked !! x.rows
    ensures SubmissionSound(Apply(db, op), x)
  {
    if x.pc.Committing? { UnreviewedStays(db, op, x.request); }
  }

  lemma DeletionUndisturbed(db: Tables, op: Op, x: Txn)
    requires x.job.Deletion? && DeletionSound(db, x) && Linked(db) && Allowed(db, op)
    requires op.Submit? && op.via.Some? ==> op.via.value !in x.rows
    requires op.Delete? && !x.pc.Marking? ==> op.mentor != x.job.mentor
    ensures DeletionSound(Apply(db, op), x)
  {
  }

  lemma CommitSparesOthers(db: Tables, x: Txn, y: Txn)
    requires WellKept(db) && Sound(db, x) && x.pc.Committing? && Sound(db, y) && Apart(x, y) && Allowed(db, OpOf(x))
    ensures Sound(Apply(db, OpOf(x)), y)
  {
    if y.job.Deletion? { DeletionUndisturbed(db, OpOf(x), y); } else { SubmissionUndisturbed(db, OpOf(x), y); }
  }

  lemma CommitKeepsInv(s: State, t: Tid)
    requires Inv(s) && t in s.txns && s.txns[t].pc.Committing?
    ensures Inv(After(s, t)) && Allowed(s.db, OpOf(s.txns[t])) && After(s, t).db == Apply(s.db, OpOf(s.txns[t]))
  {
    CommitIsAtomic(s.db, s.txns[t]);
    OpKeepsWellKept(s.db, OpOf(s.txns[t]));
    forall u | u in After(s, t).txns ensures Sound(After(s, t).db, s.txns[u]) {
      CommitSparesOthers(s.db, s.txns[t], s.txns[u]);
    }
  }

  lemma WriteKeepsInv(s: State, op: Op)
    requires Inv(s) && Autocommit(op) && Allowed(s.db, op)
    ensures Inv(s.(db := Apply(s.db, op), log := s.log + [op]))
  {
    OpKeepsWellKept(s.db, op);
    forall u | u in s.txns ensures Sound(Apply(s.db, op), s.txns[u]) {
      if s.txns[u].job.Deletion? {
        DeletionUndisturbed(s.db, op, s.txns[u]);
      } else {
        SubmissionUndisturbed(s.db, op, s.txns[u]);
      }
    }
  }

  lemma NextKeepsInv(s: State, e: Event, s': State)
    requires Inv(s) && Next(s, e, s')
    ensures Inv(s')
    ensures (s'.log == s.log && s'.db == s.db) ||
            exists op :: s'.log == s.log + [op] && Allowed(s.db, op) && s'.db == Apply(s.db, op)
  {
    match e
    case Begin(t, job) =>
    case Tick(d) =>
    case Abort(t) =>
    case Row(t, h) => RowKeepsInv(s, t, h);
    case Write(op) => WriteKeepsInv(s, op);
    case Advance(t) =>
      if s.txns[t].pc.Committing? {
        CommitKeepsInv(s, t);
        assert s'.log == s.log + [OpOf(s.txns[t])];
      } else {
        AdvanceKeepsInv(s, t);
        StatementKeepsSound(s, t);
      }
  }
}
