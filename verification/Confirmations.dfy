/** Email confirmation: clicks, resends and the registration job, each reading first and
    writing later, between any other writes to the mentors table. */
module Confirmations {
  import opened Prelude
  import opened Lifecycle

  type Pid = nat

  datatype Proc =
    | Confirming(token: Token)
    | Announcing(token: Token)
    | Resending(token: Token, secret: Secret)
    | Mailing(token: Token)
    | Finalizing(mentor: Id, claim: Claim, expected: Option<Token>)
    | Sending(mentor: Id, claim: Claim)

  /** What has happened so far: tokens generated, stored in a row, mailed; consumed by a
      confirmation, replaced by a resend; confirmations announced to the worker, and
      those whose process died before it could. */
  datatype Trace = Trace(used: set<Token>, stored: set<Token>, mailed: set<Token>, confirmed: set<Token>,
                         rotated: set<Token>, announced: set<Token>, lost: set<Token>)

  datatype State = State(db: Table, clock: int, procs: map<Pid, Proc>, trace: Trace)

  function Tokens(s: Option<Secret>): set<Token> {
    if s.Some? then {s.value.token} else {}
  }

  /** The token a process has generated and not yet stored. */
  function Unborn(proc: Proc): set<Token> {
    match proc
    case Resending(_, secret) => {secret.token}
    case Finalizing(_, claim, _) => Tokens(claim.secret)
    case _ => {}
  }

  predicate Holds(db: Table, m: Id, token: Token) {
    m in db && token in Tokens(db[m].confirmation)
  }

  predicate Affects(s: State, stmt: Stmt) {
    exists m :: m in s.db && Applies(s.db, stmt, m, s.clock)
  }

  function Goto(s: State, p: Pid, proc: Proc): State {
    s.(procs := s.procs[p := proc])
  }

  function End(s: State, p: Pid): State {
    s.(procs := s.procs - {p})
  }

  function Executed(s: State, stmt: Stmt): State {
    s.(db := Exec(s.db, stmt, s.clock))
  }

  /** The write a process makes: a mail or a trigger follows only if it applied. */
  function After(s: State, p: Pid): State
    requires p in s.procs
  {
    var tr := s.trace;
    match s.procs[p]
    case Confirming(token) =>
      if !Affects(s, ConsumeConfirmation(token)) then End(s, p)
      else
        Goto(Executed(s, ConsumeConfirmation(token)), p, Announcing(token))
          .(trace := tr.(confirmed := tr.confirmed + {token}))
    case Announcing(token) => End(s, p).(trace := tr.(announced := tr.announced + {token}))
    case Resending(token, secret) =>
      if !Affects(s, Rotate(token, secret)) then End(s, p)
      else Goto(Executed(s, Rotate(token, secret)), p, Mailing(secret.token)).(trace :=
        tr.(rotated := tr.rotated + {token}, stored := tr.stored + {secret.token}))
    case Mailing(token) => End(s, p).(trace := tr.(mailed := tr.mailed + {token}))
    case Finalizing(m, claim, expected) =>
      if !Affects(s, Finalize(m, claim, expected)) then End(s, p)
      else Goto(Executed(s, Finalize(m, claim, expected)), p, Sending(m, claim)).(trace :=
        tr.(stored := tr.stored + Tokens(claim.secret)))
    case Sending(_, claim) => End(s, p).(trace := tr.(mailed := tr.mailed + Tokens(claim.secret)))
  }

  /** A failed send hands the row back. */
  function Released(s: State, p: Pid): State
    requires p in s.procs && s.procs[p].Sending?
  {
    End(Executed(s, Release(s.procs[p].mentor, s.procs[p].claim)), p)
  }

  function Died(s: State, p: Pid): State
    requires p in s.procs
  {
    if s.procs[p].Announcing? then End(s, p).(trace := s.trace.(lost := s.trace.lost + {s.procs[p].token}))
    else End(s, p)
  }

  predicate Starts(proc: Proc) {
    proc.Confirming? || proc.Resending? || proc.Finalizing?
  }

  /** Every other write leaves confirmation tokens to the processes above. */
  predicate Elsewhere(stmt: Stmt) {
    !stmt.ConsumeConfirmation? && !stmt.Rotate? && !stmt.Finalize? && !stmt.Release?
  }

  datatype Event =
    | Begin(p: Pid, proc: Proc) | Step(p: Pid) | SendFails(p: Pid) | Abort(p: Pid)
    | Sql(stmt: Stmt) | Tick(d: nat)

  ghost predicate Next(s: State, e: Event, s': State) {
    match e
    case Begin(p, proc) =>
      p !in s.procs && Starts(proc) && Unborn(proc) !! s.trace.used
      && s' == Goto(s, p, proc).(trace := s.trace.(used := s.trace.used + Unborn(proc)))
    case Step(p) => p in s.procs && s' == After(s, p)
    case SendFails(p) => p in s.procs && s.procs[p].Sending? && s' == Released(s, p)
    case Abort(p) => p in s.procs && s' == Died(s, p)
    case Sql(stmt) => Elsewhere(stmt) && s' == Executed(s, stmt)
    case Tick(d) => s' == s.(clock := s.clock + d)
  }

  /** Any table in which no two rows carry the same token. */
  ghost predicate Initial(s: State) {
    && s.procs == map[] && s.trace == Trace(s.trace.used, s.trace.stored, {}, {}, {}, {}, {})
    && (forall t :: t in s.trace.stored <==> exists m :: Holds(s.db, m, t))
    && (forall m, n, t :: Holds(s.db, m, t) && Holds(s.db, n, t) ==> m == n)
    && s.trace.stored <= s.trace.used
  }

  ghost predicate Run(states: seq<State>, events: seq<Event>) {
    |states| == |events| + 1 && Initial(states[0]) &&
    forall i :: 0 <= i < |events| ==> Next(states[i], events[i], states[i + 1])
  }

  // ---- The invariant ----------------------------------------------------------------

  ghost predicate RowsSound(db: Table, tr: Trace) {
    && (forall m, t :: Holds(db, m, t) ==> t in tr.stored && t !in tr.confirmed && t !in tr.rotated)
    && (forall m, n, t :: Holds(db, m, t) && Holds(db, n, t) ==> m == n)
  }

  ghost predicate TraceSound(tr: Trace) {
    && tr.mailed <= tr.stored <= tr.used
    && tr.confirmed <= tr.stored && tr.rotated <= tr.stored && tr.confirmed !! tr.rotated
    && tr.announced <= tr.confirmed && tr.lost <= tr.confirmed && tr.announced !! tr.lost
  }

  ghost predicate ProcSound(tr: Trace, proc: Proc) {
    && Unborn(proc) <= tr.used && Unborn(proc) !! tr.stored
    && match proc
       case Announcing(t) => t in tr.confirmed && t !in tr.announced && t !in tr.lost
       case Mailing(t) => t in tr.stored
       case Sending(_, claim) => Tokens(claim.secret) <= tr.stored
       case _ => true
  }

  ghost predicate Apart(x: Proc, y: Proc) {
    Unborn(x) !! Unborn(y) && (x.Announcing? && y.Announcing? ==> x.token != y.token)
  }

  ghost predicate Awaited(s: State, t: Token) {
    exists p :: p in s.procs && s.procs[p] == Announcing(t)
  }

  ghost predicate Inv(s: State) {
    && RowsSound(s.db, s.trace) && TraceSound(s.trace)
    && (forall p :: p in s.procs ==> ProcSound(s.trace, s.procs[p]))
    && (forall p, q :: p in s.procs && q in s.procs && p != q ==> Apart(s.procs[p], s.procs[q]))
    && (forall t :: t in s.trace.confirmed ==> t in s.trace.announced || t in s.trace.lost || Awaited(s, t))
  }

  // ---- Preservation -------------------------------------------------------------------

  lemma ExecOnRow(db: Table, stmt: Stmt, now: int, m: Id)
    requires m in Exec(db, stmt, now)
    ensures m !in db ==> stmt.Insert? && Exec(db, stmt, now)[m] == REGISTERED
    ensures m in db ==>
      Exec(db, stmt, now)[m] ==
        if !stmt.Insert? && !stmt.Purge? && Where(stmt, m, db[m], now) then Set(stmt, db[m], now) else db[m]
  {
  }

  function Minted(stmt: Stmt): set<Token> {
    match stmt
    case Rotate(_, secret) => {secret.token}
    case Finalize(_, claim, _) => Tokens(claim.secret)
    case _ => {}
  }

  /** A row gets a new confirmation token only from a rotation or a finalization. */
  lemma ExecHolds(db: Table, stmt: Stmt, now: int, m: Id, t: Token)
    requires Holds(Exec(db, stmt, now), m, t)
    ensures Holds(db, m, t) || (t in Minted(stmt) && Applies(db, stmt, m, now))
    ensures stmt.ConsumeConfirmation? && t == stmt.token ==> Holds(db, m, t) && !Applies(db, stmt, m, now)
    ensures stmt.Rotate? && t == stmt.token && t !in Minted(stmt) ==> Holds(db, m, t) && !Applies(db, stmt, m, now)
  {
    ExecOnRow(db, stmt, now, m);
  }

  /** The row a token picks is the only one. */
  lemma OneRow(db: Table, tr: Trace, stmt: Stmt, now: int, m: Id, n: Id)
    requires RowsSound(db, tr) && Applies(db, stmt, m, now) && Applies(db, stmt, n, now)
    requires stmt.ConsumeConfirmation? || stmt.Rotate? || stmt.Finalize?
    ensures m == n
  {
    if !stmt.Finalize? { assert Holds(db, m, stmt.token) && Holds(db, n, stmt.token); }
  }

  function Noted(tr: Trace, stmt: Stmt): Trace {
    match stmt
    case ConsumeConfirmation(t) => tr.(confirmed := tr.confirmed + {t})
    case Rotate(t, secret) => tr.(rotated := tr.rotated + {t}, stored := tr.stored + {secret.token})
    case Finalize(_, claim, _) => tr.(stored := tr.stored + Tokens(claim.secret))
    case _ => tr
  }

  lemma WriteKeepsRows(s: State, stmt: Stmt)
    requires RowsSound(s.db, s.trace) && TraceSound(s.trace) && Affects(s, stmt)
    requires Minted(stmt) !! s.trace.stored
    ensures RowsSound(Exec(s.db, stmt, s.clock), Noted(s.trace, stmt))
  {
    var db := Exec(s.db, stmt, s.clock);
    var k :| k in s.db && Applies(s.db, stmt, k, s.clock);
    forall m, t | Holds(db, m, t)
      ensures t in Noted(s.trace, stmt).stored && t !in Noted(s.trace, stmt).confirmed
      ensures t !in Noted(s.trace, stmt).rotated
      ensures Holds(s.db, m, t) || (t in Minted(stmt) && m == k)
    {
      ExecHolds(s.db, stmt, s.clock, m, t);
      if stmt.ConsumeConfirmation? || stmt.Rotate? {
        assert Holds(s.db, k, stmt.token);
      }
      if t in Minted(stmt) && Applies(s.db, stmt, m, s.clock) { OneRow(s.db, s.trace, stmt, s.clock, m, k); }
    }
    forall m, n, t | Holds(db, m, t) && Holds(db, n, t) ensures m == n {
      if t in Minted(stmt) { assert !Holds(s.db, m, t) && !Holds(s.db, n, t); }
    }
  }

  lemma WriteKeepsTrace(s: State, stmt: Stmt)
    requires RowsSound(s.db, s.trace) && TraceSound(s.trace) && Affects(s, stmt)
    requires Minted(stmt) !! s.trace.stored && Minted(stmt) <= s.trace.used
    ensures TraceSound(Noted(s.trace, stmt))
    ensures stmt.ConsumeConfirmation? || stmt.Rotate? ==>
              stmt.token in s.trace.stored && stmt.token !in s.trace.confirmed && stmt.token !in s.trace.rotated
  {
    var k :| k in s.db && Applies(s.db, stmt, k, s.clock);
    if stmt.ConsumeConfirmation? || stmt.Rotate? { assert Holds(s.db, k, stmt.token); }
  }

  lemma OthersKept(s: State, s': State, p: Pid)
    requires Inv(s) && p in s.procs && s'.procs - {p} == s.procs - {p}
    requires s'.trace.used == s.trace.used && s'.trace.stored <= s.trace.stored + Unborn(s.procs[p])
    requires s.trace.stored <= s'.trace.stored && s.trace.confirmed <= s'.trace.confirmed
    requires forall t :: t in s'.trace.announced + s'.trace.lost ==>
               t in s.trace.announced + s.trace.lost || s.procs[p] == Announcing(t)
    ensures forall q :: q in s'.procs && q != p ==>
              q in s.procs && s'.procs[q] == s.procs[q] && ProcSound(s'.trace, s'.procs[q])
  {
    forall q | q in s'.procs && q != p
      ensures q in s.procs && s'.procs[q] == s.procs[q] && ProcSound(s'.trace, s'.procs[q])
    {
      assert q in s'.procs - {p} && (s'.procs - {p})[q] == s'.procs[q];
      assert Apart(s.procs[p], s.procs[q]) && ProcSound(s.trace, s.procs[q]);
    }
  }

  function StmtOf(proc: Proc): Stmt
    requires Starts(proc)
  {
    match proc
    case Confirming(t) => ConsumeConfirmation(t)
    case Resending(t, secret) => Rotate(t, secret)
    case Finalizing(m, claim, expected) => Finalize(m, claim, expected)
  }

  function Followup(proc: Proc): Proc
    requires Starts(proc)
  {
    match proc
    case Confirming(t) => Announcing(t)
    case Resending(_, secret) => Mailing(secret.token)
    case Finalizing(m, claim, _) => Sending(m, claim)
  }

  lemma WriteStep(s: State, p: Pid)
    requires p in s.procs && Starts(s.procs[p])
    ensures After(s, p) == if Affects(s, StmtOf(s.procs[p]))
                           then State(Exec(s.db, StmtOf(s.procs[p]), s.clock), s.clock,
                                      s.procs[p := Followup(s.procs[p])], Noted(s.trace, StmtOf(s.procs[p])))
                           else End(s, p)
    ensures Minted(StmtOf(s.procs[p])) == Unborn(s.procs[p])
  {
  }

  lemma PendingKept(s: State, s': State, p: Pid)
    requires p in s.procs && !s.procs[p].Announcing? && s'.procs - {p} == s.procs - {p}
    ensures forall t :: Awaited(s, t) ==> Awaited(s', t)
  {
    forall t | Awaited(s, t) ensures Awaited(s', t) {
      var q :| q in s.procs && s.procs[q] == Announcing(t);
      assert q in s.procs - {p} && q in s'.procs - {p} && (s'.procs - {p})[q] == s'.procs[q];
    }
  }

  lemma WriteKeepsInv(s: State, p: Pid)
    requires Inv(s) && p in s.procs && Starts(s.procs[p]) && Affects(s, StmtOf(s.procs[p]))
    ensures Inv(After(s, p))
  {
    var stmt, s' := StmtOf(s.procs[p]), After(s, p);
    WriteStep(s, p);
    assert ProcSound(s.trace, s.procs[p]);
    WriteKeepsRows(s, stmt);
    WriteKeepsTrace(s, stmt);
    assert s'.procs - {p} == s.procs - {p};
    OthersKept(s, s', p);
    PendingKept(s, s', p);
    assert s'.procs[p] == Followup(s.procs[p]);
    forall t | t in s'.trace.confirmed ensures t in s'.trace.announced || t in s'.trace.lost || Awaited(s', t) {
      if t !in s.trace.confirmed { assert s'.procs[p] == Announcing(t); }
    }
    assert ProcSound(s'.trace, s'.procs[p]);
    forall q | q in s'.procs && q != p ensures Apart(s'.procs[p], s'.procs[q]) && Apart(s'.procs[q], s'.procs[p]) {
      assert Apart(s.procs[p], s.procs[q]) && Apart(s.procs[q], s.procs[p]) && ProcSound(s.trace, s.procs[q]);
    }
  }

  /** Ending a process: a note in the trace that concerns nobody else. */
  lemma EndKeepsInv(s: State, p: Pid, tr: Trace)
    requires Inv(s) && p in s.procs && TraceSound(tr)
    requires tr.used == s.trace.used && tr.stored == s.trace.stored
    requires tr.confirmed == s.trace.confirmed && tr.rotated == s.trace.rotated
    requires tr.announced + tr.lost
          == s.trace.announced + s.trace.lost + (if s.procs[p].Announcing? then {s.procs[p].token} else {})
    ensures Inv(End(s, p).(trace := tr))
  {
    var s' := End(s, p).(trace := tr);
    OthersKept(s, s', p);
    forall t | t in tr.confirmed ensures t in tr.announced || t in tr.lost || Awaited(s', t) {
      if t !in tr.announced + tr.lost {
        var q :| q in s.procs && s.procs[q] == Announcing(t);
        assert q in s'.procs && s'.procs[q] == Announcing(t);
      }
    }
  }

  lemma StepKeepsInv(s: State, p: Pid)
    requires Inv(s) && p in s.procs
    ensures Inv(After(s, p))
  {
    var proc := s.procs[p];
    assert ProcSound(s.trace, proc);
    if Starts(proc) {
      WriteStep(s, p);
      if Affects(s, StmtOf(proc)) { WriteKeepsInv(s, p); } else { EndKeepsInv(s, p, s.trace); }
    } else {
      EndKeepsInv(s, p, After(s, p).trace);
    }
  }

  /** No other statement, and no release, puts a token into a row. */
  lemma RowsKept(s: State, stmt: Stmt)
    requires RowsSound(s.db, s.trace) && (Elsewhere(stmt) || stmt.Release?)
    ensures RowsSound(Exec(s.db, stmt, s.clock), s.trace)
  {
    forall m, t | Holds(Exec(s.db, stmt, s.clock), m, t) ensures Holds(s.db, m, t) {
      ExecHolds(s.db, stmt, s.clock, m, t);
    }
  }

  lemma NextKeepsInv(s: State, e: Event, s': State)
    requires Inv(s) && Next(s, e, s')
    ensures Inv(s')
  {
    match e
    case Begin(p, proc) =>
      forall t | Awaited(s, t) ensures Awaited(s', t) {
        var q :| q in s.procs && s.procs[q] == Announcing(t);
        assert s'.procs[q] == Announcing(t);
      }
      forall q | q in s.procs ensures Apart(proc, s.procs[q]) && Apart(s.procs[q], proc) {
        assert ProcSound(s.trace, s.procs[q]);
      }
      forall q | q in s'.procs ensures ProcSound(s'.trace, s'.procs[q]) {
        if q != p { assert ProcSound(s.trace, s.procs[q]); }
      }
    case Step(p) => StepKeepsInv(s, p);
    case SendFails(p) =>
      RowsKept(s, Release(s.procs[p].mentor, s.procs[p].claim));
      EndKeepsInv(s.(db := s'.db), p, s.trace) by { assert forall t :: Awaited(s, t) <==> Awaited(s.(db := s'.db), t); }
    case Abort(p) =>
      assert ProcSound(s.trace, s.procs[p]);
      EndKeepsInv(s, p, s'.trace);
    case Sql(stmt) =>
      RowsKept(s, stmt);
      assert forall t :: Awaited(s, t) <==> Awaited(s', t);
    case Tick(d) =>
      assert forall t :: Awaited(s, t) <==> Awaited(s', t);
  }

  lemma {:induction false} RunKeepsInv(states: seq<State>, events: seq<Event>)
    requires Run(states, events)
    ensures Inv(states[|events|])
  {
    if events != [] {
      RunKeepsInv(states[..|events|], events[..|events| - 1]);
      NextKeepsInv(states[|events| - 1], events[|events| - 1], states[|events|]);
    }
  }

  // ---- What a link is worth -------------------------------------------------------------

  ghost predicate WasStored(states: seq<State>, t: Token) {
    exists i: nat, m :: i < |states| && Holds(states[i].db, m, t)
  }

  lemma StoringStores(s: State, e: Event, s': State, t: Token)
    requires Inv(s) && Next(s, e, s') && t in s'.trace.stored && t !in s.trace.stored
    ensures exists m :: Holds(s'.db, m, t)
  {
    var p := e.p;
    WriteStep(s, p);
    var stmt := StmtOf(s.procs[p]);
    var m :| m in s.db && Applies(s.db, stmt, m, s.clock);
    ExecOnRow(s.db, stmt, s.clock, m);
    assert Holds(s'.db, m, t);
  }

  lemma {:induction false} StoredWasInARow(states: seq<State>, events: seq<Event>, t: Token)
    requires Run(states, events) && t in states[|events|].trace.stored
    ensures WasStored(states, t)
  {
    var n := |events| - 1;
    if events == [] {
      var m :| Holds(states[0].db, m, t);
    } else if t in states[n].trace.stored {
      StoredWasInARow(states[..n + 1], events[..n], t);
      var i: nat, m :| i < n + 1 && Holds(states[..n + 1][i].db, m, t);
      assert Holds(states[i].db, m, t);
    } else {
      RunKeepsInv(states[..n + 1], events[..n]);
      StoringStores(states[n], events[n], states[n + 1], t);
      var m :| Holds(states[n + 1].db, m, t);
    }
  }

  /** Nobody is ever mailed a link whose token was not in a row first. */
  lemma MailedLinksWereStored(states: seq<State>, events: seq<Event>, t: Token)
    requires Run(states, events) && t in states[|events|].trace.mailed
    ensures WasStored(states, t)
  {
    RunKeepsInv(states, events);
    StoredWasInARow(states, events, t);
  }

  /** In every run, the confirmations that applied are exactly those announced to the
      worker, those whose announcement is on its way and those whose process died; and
      no token was both consumed and replaced. */
  lemma TriggersMatchConfirmations(states: seq<State>, events: seq<Event>)
    requires Run(states, events)
    ensures var s, tr := states[|events|], states[|events|].trace;
            && tr.announced !! tr.lost && tr.confirmed !! tr.rotated
            && (forall t :: t in tr.confirmed <==> t in tr.announced || t in tr.lost || Awaited(s, t))
            && (forall t :: Awaited(s, t) ==> t !in tr.announced && t !in tr.lost)
  {
    RunKeepsInv(states, events);
    var s := states[|events|];
    forall t | Awaited(s, t) ensures t in s.trace.confirmed && t !in s.trace.announced && t !in s.trace.lost {
      var p :| p in s.procs && s.procs[p] == Announcing(t);
      assert ProcSound(s.trace, s.procs[p]);
    }
  }

  /** A click confirms exactly when its token is in a draft's row in its window; it then
      moves that one row to pending, and was never spent before. */
  lemma ClickConfirmsIffGood(s: State, p: Pid)
    requires Inv(s) && p in s.procs && s.procs[p].Confirming?
    ensures var t := s.procs[p].token;
            p in After(s, p).procs <==>
              exists m :: Holds(s.db, m, t) && s.db[m].status == Draft && s.db[m].confirmation.value.expires >= s.clock
    ensures p in After(s, p).procs ==>
              var t := s.procs[p].token;
              t !in s.trace.confirmed && t !in s.trace.rotated
              && exists m :: Holds(s.db, m, t)
                   && After(s, p).db == s.db[m := s.db[m].(status := Status.Pending, confirmation := None)]
  {
    var t := s.procs[p].token;
    var stmt := ConsumeConfirmation(t);
    if Affects(s, stmt) {
      var m :| m in s.db && Applies(s.db, stmt, m, s.clock);
      assert Holds(s.db, m, t);
      forall n | n in s.db && n != m ensures !Where(stmt, n, s.db[n], s.clock) {
        if Applies(s.db, stmt, n, s.clock) { OneRow(s.db, s.trace, stmt, s.clock, m, n); }
      }
      assert After(s, p).db == s.db[m := s.db[m].(status := Status.Pending, confirmation := None)];
    } else {
      forall m | Holds(s.db, m, t) ensures !(s.db[m].status == Draft && s.db[m].confirmation.value.expires >= s.clock) {
        assert !Applies(s.db, stmt, m, s.clock);
      }
    }
  }

  /** A resend mails its fresh link exactly when a draft still carries the old token, and
      stores it before it mails it; otherwise nothing is stored and nothing is sent. */
  lemma ResendMailsIffStillDraft(s: State, p: Pid)
    requires Inv(s) && p in s.procs && s.procs[p].Resending?
    ensures var t, secret, s1 := s.procs[p].token, s.procs[p].secret, After(s, p);
            var draft := exists m :: Holds(s.db, m, t) && s.db[m].status == Draft;
            && (p in s1.procs <==> draft)
            && (!draft ==> s1.db == s.db && s1.trace == s.trace)
            && (draft ==> && (exists m :: && Holds(s.db, m, t)
                                          && s1.db == s.db[m := s.db[m].(confirmation := Some(secret))])
                          && s1.trace.mailed == s.trace.mailed
                          && After(s1, p) == End(s1, p).(trace := After(s1, p).trace)
                          && After(s1, p).trace.mailed == s.trace.mailed + {secret.token})
  {
    var t, secret := s.procs[p].token, s.procs[p].secret;
    var stmt := Rotate(t, secret);
    if Affects(s, stmt) {
      var m :| m in s.db && Applies(s.db, stmt, m, s.clock);
      assert Holds(s.db, m, t);
      forall n | n in s.db && n != m ensures !Where(stmt, n, s.db[n], s.clock) {
        if Applies(s.db, stmt, n, s.clock) { OneRow(s.db, s.trace, stmt, s.clock, m, n); }
      }
      assert After(s, p).db == s.db[m := s.db[m].(confirmation := Some(secret))];
    } else {
      forall m | Holds(s.db, m, t) ensures s.db[m].status != Draft {
        assert !Applies(s.db, stmt, m, s.clock);
      }
    }
  }

  /** A click and a resend racing on one good token: whichever writes first wins, the
      other changes nothing, sends nothing and announces nothing. */
  lemma RaceHasOneWinner(s: State, p: Pid, q: Pid, m: Id)
    requires Inv(s) && p in s.procs && q in s.procs && p != q
    requires s.procs[p].Confirming? && s.procs[q].Resending? && s.procs[p].token == s.procs[q].token
    requires Applies(s.db, ConsumeConfirmation(s.procs[p].token), m, s.clock)
    ensures After(After(s, p), q) == End(After(s, p), q) && p in After(s, p).procs
    ensures After(After(s, q), p) == End(After(s, q), p) && q in After(s, q).procs
  {
    var t := s.procs[p].token;
    assert Holds(s.db, m, t) && Affects(s, ConsumeConfirmation(t)) && Affects(s, Rotate(t, s.procs[q].secret)) by {
      assert Applies(s.db, Rotate(t, s.procs[q].secret), m, s.clock);
    }
    StepKeepsInv(s, p);
    StepKeepsInv(s, q);
    WriteStep(s, p);
    WriteStep(s, q);
    SpentIsUseless(After(s, p), q);
    SpentIsUseless(After(s, q), p);
  }

  lemma SpentIsUseless(s: State, p: Pid)
    requires Inv(s) && p in s.procs && (s.procs[p].Confirming? || s.procs[p].Resending?)
    requires s.procs[p].token in s.trace.confirmed + s.trace.rotated
    ensures After(s, p) == End(s, p)
  {
    var stmt := StmtOf(s.procs[p]);
    forall m | m in s.db ensures !Applies(s.db, stmt, m, s.clock) {
      assert !Holds(s.db, m, stmt.token);
    }
    WriteStep(s, p);
  }

  /** A link in its window leaves its row only by being clicked or replaced, by the
      failed send of the very job that stored it, or with the row itself: no second
      finalization overwrites it. */
  lemma OpenWindowIsKept(s: State, e: Event, s': State, m: Id, t: Token)
    requires Inv(s) && Next(s, e, s') && Holds(s.db, m, t) && s.db[m].confirmation.value.expires > s.clock
    requires !Holds(s'.db, m, t)
    ensures || (e.Step? && s.procs[e.p].Confirming? && s.procs[e.p].token == t)
            || (e.Step? && s.procs[e.p].Resending? && s.procs[e.p].token == t)
            || (e.SendFails? && s.procs[e.p].mentor == m && Tokens(s.procs[e.p].claim.secret) == {t})
            || (e.Sql? && e.stmt == Purge(m))
  {
    match e
    case Sql(stmt) => if m in s'.db { ExecOnRow(s.db, stmt, s.clock, m); }
    case Step(p) =>
      if Starts(s.procs[p]) {
        WriteStep(s, p);
        ExecOnRow(s.db, StmtOf(s.procs[p]), s.clock, m);
      }
    case SendFails(p) => ExecOnRow(s.db, Release(s.procs[p].mentor, s.procs[p].claim), s.clock, m);
    case _ =>
  }
}
