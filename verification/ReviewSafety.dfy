/** What holds of every run of the review protocol. */
module ReviewSafety {
  import opened Prelude
  import opened Reviews
  import opened ReviewProtocol

  lemma LegalSnoc(db: Tables, ops: seq<Op>, op: Op)
    requires Legal(db, ops) && Allowed(Replay(db, ops), op)
    ensures Legal(db, ops + [op]) && Replay(db, ops + [op]) == Apply(Replay(db, ops), op)
  {
    assert (ops + [op])[..|ops + [op]| - 1] == ops;
  }

  /** Serializability: the committed tables are what the committed operations, in commit
      order, make of the first. */
  lemma {:induction false} RunsAreSerial(states: seq<State>, events: seq<Event>)
    requires Run(states, events)
    ensures var last := states[|events|];
            Inv(last) && Legal(states[0].db, last.log) && last.db == Replay(states[0].db, last.log)
  {
    if events != [] {
      var k := |events| - 1;
      RunsAreSerial(states[..k + 1], events[..k]);
      NextKeepsInv(states[k], events[k], states[k + 1]);
      if states[k + 1].log != states[k].log {
        var op :| states[k + 1].log == states[k].log + [op] && Allowed(states[k].db, op)
                  && states[k + 1].db == Apply(states[k].db, op);
        LegalSnoc(states[0].db, states[k].log, op);
      }
    }
  }

  lemma RunReaches(states: seq<State>, events: seq<Event>, k: nat)
    requires Run(states, events) && k <= |events|
    ensures Inv(states[k])
  {
    assert Run(states[..k + 1], events[..k]);
    RunsAreSerial(states[..k + 1], events[..k]);
  }

  /** However submissions, deletions and new invitations interleave: one review per
      request; at most one consumed invitation per request, never without its review;
      none both consumed and revoked; and nothing is consumed, or reviewed, but by a
      submission that committed. */
  lemma OneReviewOneToken(states: seq<State>, events: seq<Event>)
    requires Run(states, events)
    ensures var db, last := states[0].db, states[|events|];
            && WellKept(last.db)
            && last.db.reviews.Keys == db.reviews.Keys + Written(last.log)
            && Consumed(last.db) == Consumed(db) + Spent(last.log)
  {
    RunsAreSerial(states, events);
    OnlySubmissionsSpend(states[0].db, states[|events|].log);
  }

  // ---- Refusals ---------------------------------------------------------------------------

  /** A submission that is turned away, for whatever reason, leaves every table as it
      was; the invitation it had claimed is as spendable as when it claimed it, and
      nobody holds its row. */
  lemma RefusalCostsNothing(s: State, t: Tid)
    requires Inv(s) && t in s.txns && IsSubmission(s.txns[t]) && !s.txns[t].pc.Committing?
    requires t !in After(s, t).txns
    ensures After(s, t).db == s.db
    ensures forall h :: h in s.txns[t].rows ==>
              Live(s.db, h, s.txns[t].began) && forall u :: u in After(s, t).txns ==> h !in After(s, t).txns[u].rows
  {
    var x := s.txns[t];
    assert Sound(s.db, x);
    forall h, u | h in x.rows && u in After(s, t).txns ensures h !in After(s, t).txns[u].rows {
      assert Apart(x, s.txns[u]);
    }
  }

  lemma ClaimedRowIsUnspent(s: State, t: Tid, h: Hash)
    requires Inv(s) && t in s.txns && IsSubmission(s.txns[t]) && h in s.txns[t].rows
    ensures h in s.db.invitations && Unspent(s.db.invitations[h])
  {
    assert Sound(s.db, s.txns[t]);
  }

  /** While a submission holds its invitation, nobody else commits a change to it. */
  lemma ClaimedRowIsFrozen(s: State, e: Event, s': State, t: Tid, h: Hash)
    requires Inv(s) && Next(s, e, s')
    requires t in s.txns && t in s'.txns && h in s.txns[t].rows && h in s'.txns[t].rows
    requires IsSubmission(s.txns[t]) && IsSubmission(s'.txns[t])
    ensures h in s.db.invitations && h in s'.db.invitations && s'.db.invitations[h] == s.db.invitations[h]
  {
    NextKeepsInv(s, e, s');
    ClaimedRowIsUnspent(s, t, h);
    ClaimedRowIsUnspent(s', t, h);
    if s'.db != s.db {
      var op :| s'.log == s.log + [op] && Allowed(s.db, op) && s'.db == Apply(s.db, op);
      SpentStaysSpent(s.db, op, h);
    }
  }

  predicate PastCheck(x: Txn) {
    IsSubmission(x) && (x.pc.Inserting? || x.pc.Committing?)
  }

  lemma AdvanceIsGated(s: State, u: Tid, t: Tid)
    requires Inv(s) && u in s.txns && t in After(s, u).txns && PastCheck(After(s, u).txns[t])
    ensures t in s.txns && s.txns[t].job == After(s, u).txns[t].job && s.txns[t].request == After(s, u).txns[t].request
    ensures PastCheck(s.txns[t]) || Eligible(s.db, s.txns[t].request, s.txns[t].job.ByRequest?)
  {
    assert Sound(s.db, s.txns[u]);
  }

  /** Only the check, and only on an eligible request, leads past the check. */
  lemma CheckIsTheGate(s: State, e: Event, s': State, t: Tid)
    requires Inv(s) && Next(s, e, s') && t in s'.txns && PastCheck(s'.txns[t])
    ensures t in s.txns && s.txns[t].job == s'.txns[t].job && s.txns[t].request == s'.txns[t].request
    ensures PastCheck(s.txns[t]) || Eligible(s.db, s.txns[t].request, s.txns[t].job.ByRequest?)
  {
    match e
    case Advance(u) => AdvanceIsGated(s, u, t);
    case Row(u, h) => if t in s.txns { assert Sound(s.db, s.txns[t]); }
    case _ =>
  }

  ghost predicate CheckedAt(states: seq<State>, i: nat, t: Tid, x: Txn) {
    && i < |states| && t in states[i].txns && states[i].txns[t].job == x.job
    && var db, q := states[i].db, x.request;
       && q in db.requests && db.requests[q].status == "done"
       && (forall r :: r in db.reviews ==> db.reviews[r].request != q)
       && db.requests[q].mentor in db.mentors && !db.mentors[db.requests[q].mentor]
       && (x.job.ByRequest? ==> !db.requests[q].legacyRevoked)
  }

  /** Every review under way, and so every review stored, was judged eligible by its
      own transaction: done, unreviewed, its mentor not deleted at that moment. */
  lemma {:induction false} EveryReviewWasEligible(states: seq<State>, events: seq<Event>, t: Tid)
    requires Run(states, events) && t in states[|events|].txns && PastCheck(states[|events|].txns[t])
    ensures exists i: nat :: CheckedAt(states, i, t, states[|events|].txns[t])
  {
    var k, x := |events| - 1, states[|events|].txns[t];
    RunsAreSerial(states[..k + 1], events[..k]);
    CheckIsTheGate(states[k], events[k], states[k + 1], t);
    if PastCheck(states[k].txns[t]) {
      EveryReviewWasEligible(states[..k + 1], events[..k], t);
      var i: nat :| CheckedAt(states[..k + 1], i, t, states[k].txns[t]);
      assert CheckedAt(states, i, t, x);
    } else {
      assert CheckedAt(states, k, t, x);
    }
  }

  // ---- Deadlock --------------------------------------------------------------------------------

  function Rank(x: Txn): nat {
    match x.pc
    case Committing => 0
    case Checking | Inserting => 1
    case Reading | Revoking(_) => 2
    case Claiming => 3
    case Marking => 4
  }

  /** Whoever waits, waits for a transaction strictly further along. */
  lemma WaitsRankDown(s: State, t: Tid, u: Tid)
    requires Inv(s) && Waits(s, t, u)
    ensures Rank(s.txns[u]) < Rank(s.txns[t])
  {
    assert Sound(s.db, s.txns[t]) && Sound(s.db, s.txns[u]);
  }

  lemma RowWaitsRankDown(s: State, t: Tid, u: Tid, h: Hash)
    requires Inv(s) && t in s.txns && s.txns[t].pc.Revoking? && h in s.txns[t].pc.todo && WaitsForRow(s, t, u, h)
    ensures Rank(s.txns[u]) < Rank(s.txns[t])
  {
    assert Sound(s.db, s.txns[t]) && Sound(s.db, s.txns[u]) && Apart(s.txns[t], s.txns[u]);
  }

  ghost predicate CanRun(s: State, t: Tid) {
    t in s.txns &&
    if s.txns[t].pc.Revoking? && s.txns[t].pc.todo != {}
    then exists h :: h in s.txns[t].pc.todo && !RowBlocked(s, t, h)
    else !Blocked(s, t)
  }

  lemma {:induction false} SomebodyRuns(s: State, t: Tid)
    requires Inv(s) && t in s.txns
    ensures exists u :: CanRun(s, u)
    decreases Rank(s.txns[t])
  {
    if !CanRun(s, t) {
      if s.txns[t].pc.Revoking? && s.txns[t].pc.todo != {} {
        var h :| h in s.txns[t].pc.todo;
        var u :| WaitsForRow(s, t, u, h);
        RowWaitsRankDown(s, t, u, h);
        SomebodyRuns(s, u);
      } else {
        var u :| Waits(s, t, u);
        WaitsRankDown(s, t, u);
        SomebodyRuns(s, u);
      }
    }
  }

  /** t waits for u, a deletion at whichever row of its snapshot it comes to. */
  ghost predicate WaitsOn(s: State, t: Tid, u: Tid) {
    Waits(s, t, u) ||
    (t in s.txns && s.txns[t].pc.Revoking? && exists h :: h in s.txns[t].pc.todo && WaitsForRow(s, t, u, h))
  }

  ghost predicate WaitsWithin(s: State, t: Tid, group: set<Tid>) {
    exists u :: u in group && WaitsOn(s, t, u)
  }

  /** Transactions that all wait for one another. */
  ghost predicate Stuck(s: State, group: set<Tid>) {
    group != {} && forall t :: t in group ==> WaitsWithin(s, t, group)
  }

  lemma WaitsOnRanksDown(s: State, t: Tid, u: Tid)
    requires Inv(s) && WaitsOn(s, t, u)
    ensures t in s.txns && u in s.txns && Rank(s.txns[u]) < Rank(s.txns[t])
  {
    if Waits(s, t, u) {
      WaitsRankDown(s, t, u);
    } else {
      var h :| h in s.txns[t].pc.todo && WaitsForRow(s, t, u, h);
      RowWaitsRankDown(s, t, u, h);
    }
  }

  lemma {:induction false} WaitingLeadsOut(s: State, t: Tid, group: set<Tid>)
    requires Inv(s) && t in s.txns && t in group
    ensures !(forall v :: v in group ==> WaitsWithin(s, v, group))
    decreases Rank(s.txns[t])
  {
    if WaitsWithin(s, t, group) {
      var u :| u in group && WaitsOn(s, t, u);
      WaitsOnRanksDown(s, t, u);
      WaitingLeadsOut(s, u, group);
    }
  }

  /** No deadlock: in no reachable state does every member of a group of transactions
      wait for a member, whoever else may run; and while any is under way, one can take
      its next statement. */
  lemma NoDeadlock(states: seq<State>, events: seq<Event>, group: set<Tid>)
    requires Run(states, events)
    ensures !Stuck(states[|events|], group)
    ensures states[|events|].txns != map[] ==> exists u :: CanRun(states[|events|], u)
  {
    var s := states[|events|];
    RunsAreSerial(states, events);
    if Stuck(s, group) {
      var t :| t in group;
      var u :| u in group && WaitsOn(s, t, u);
      WaitsOnRanksDown(s, t, u);
      WaitingLeadsOut(s, t, group);
    }
    if s.txns != map[] {
      var t :| t in s.txns;
      SomebodyRuns(s, t);
    }
  }
}
