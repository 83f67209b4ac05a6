/** What a profile deletion does to invitations, and when it leaves none open. */
module ReviewDeletion {
  import opened Prelude
  import opened Reviews
  import opened ReviewProtocol
  import opened ReviewSafety

  // ---- Deletion --------------------------------------------------------------------------------

  /** A deletion revokes exactly the invitations its revoking statement found that no
      submission consumed first, and touches no other. */
  lemma DeletionRevokesItsSnapshot(s: State, t: Tid)
    requires Inv(s) && t in s.txns && s.txns[t].job.Deletion? && s.txns[t].pc.Committing?
    ensures var x, after := s.txns[t], After(s, t).db;
            && after.invitations.Keys == s.db.invitations.Keys
            && (forall h :: h in x.snapshot ==>
                  h in after.invitations && !Unspent(after.invitations[h])
                  && (after.invitations[h].revoked <==> !s.db.invitations[h].consumed))
            && (forall h :: h in s.db.invitations && h !in x.snapshot ==> after.invitations[h] == s.db.invitations[h])
            && x.job.mentor in after.mentors && after.mentors[x.job.mentor]
  {
    assert Sound(s.db, s.txns[t]);
  }

  /** A link once revoked or spent never opens again, whatever is restored later. */
  lemma {:induction false} DeadLinksStayDead(states: seq<State>, events: seq<Event>, k: nat, h: Hash, now: int)
    requires Run(states, events) && k <= |events|
    requires h in states[k].db.invitations && !Unspent(states[k].db.invitations[h])
    ensures h in states[|events|].db.invitations && !Live(states[|events|].db, h, now)
  {
    if k < |events| {
      var n := |events| - 1;
      DeadLinksStayDead(states[..n + 1], events[..n], k, h, now);
      RunsAreSerial(states[..n + 1], events[..n]);
      NextKeepsInv(states[n], events[n], states[n + 1]);
      if states[n + 1].db != states[n].db {
        var op :| states[n + 1].log == states[n].log + [op] && Allowed(states[n].db, op)
                  && states[n + 1].db == Apply(states[n].db, op);
        SpentStaysSpent(states[n].db, op, h);
      }
    }
  }

  /** The deletion does not revoke every invitation that exists when it commits: one
      minted after the revoking statement began is spendable beside the deleted profile,
      so a restore makes it work. */
  lemma MintedMeanwhileSurvives(s: State, t: Tid, h: Hash, q: Id, expires: int)
    requires Inv(s) && t in s.txns && s.txns[t].job.Deletion? && s.txns[t].pc == Revoking({})
    requires h !in s.db.invitations && q in s.db.requests && s.db.requests[q].mentor == s.txns[t].job.mentor
    ensures var s1 := s.(db := Apply(s.db, Mint(h, q, expires)), log := s.log + [Mint(h, q, expires)]);
            var s2 := After(s1, t);
            var s3 := After(s2, t);
            && Next(s, Write(Mint(h, q, expires)), s1) && Next(s1, Advance(t), s2) && Next(s2, Advance(t), s3)
            && s3.db.mentors[s.txns[t].job.mentor]
            && forall now :: Live(s3.db, h, now) <==> now < expires
  {
    assert Sound(s.db, s.txns[t]);
    var s1 := s.(db := Apply(s.db, Mint(h, q, expires)), log := s.log + [Mint(h, q, expires)]);
    WriteKeepsInv(s, Mint(h, q, expires));
    assert After(s1, t) == Put(s1, t, s.txns[t].(pc := Committing));
    DeletionRevokesItsSnapshot(After(s1, t), t) by { AdvanceKeepsInv(s1, t); }
  }

  // ---- When a deletion leaves nothing outstanding ------------------------------------------------

  /** At its commit: nothing stays spendable for the mentor exactly when the snapshot
      held everything outstanding. */
  lemma DeletionClosesIff(s: State, t: Tid)
    requires Inv(s) && t in s.txns && s.txns[t].job.Deletion? && s.txns[t].pc.Committing?
    ensures var m := s.txns[t].job.mentor;
            Outstanding(After(s, t).db, m) == {} <==> Outstanding(s.db, m) <= s.txns[t].snapshot
  {
    var x, m, after := s.txns[t], s.txns[t].job.mentor, After(s, t).db;
    DeletionRevokesItsSnapshot(s, t);
    forall h ensures h in Outstanding(after, m) <==> h in Outstanding(s.db, m) && h !in x.snapshot {
      assert Concerns(after, h, m) <==> Concerns(s.db, h, m);
    }
  }

  predicate MintsFor(db: Tables, op: Op, m: Id, h: Hash) {
    op.Mint? && op.hash == h && op.request in db.requests && db.requests[op.request].mentor == m
  }

  /** An invitation stays, for the same mentor, dead if it was; a new one was minted. */
  lemma InvitationsGrow(db: Tables, op: Op, m: Id, h: Hash)
    requires Linked(db) && Allowed(db, op)
    ensures h in db.invitations ==>
              && h in Apply(db, op).invitations && (Concerns(db, h, m) <==> Concerns(Apply(db, op), h, m))
              && (!Unspent(db.invitations[h]) ==> !Unspent(Apply(db, op).invitations[h])) && !MintsFor(db, op, m, h)
    ensures h !in db.invitations ==> (Concerns(Apply(db, op), h, m) <==> MintsFor(db, op, m, h))
    ensures h !in db.invitations && h in Apply(db, op).invitations ==> op.Mint?
  {
  }

  /** Event k of a run mints h for a request of m. */
  predicate MintedAt(states: seq<State>, events: seq<Event>, k: nat, m: Id, h: Hash) {
    k < |events| && k < |states| && events[k].Write? && MintsFor(states[k].db, events[k].op, m, h)
  }

  ghost predicate MintedBetween(states: seq<State>, events: seq<Event>, i: nat, j: nat, m: Id, h: Hash) {
    exists k: nat :: i <= k < j && MintedAt(states, events, k, m, h)
  }

  /** What a stretch of a run does to one invitation. */
  ghost predicate Followed(states: seq<State>, events: seq<Event>, i: nat, j: nat, m: Id, h: Hash)
    requires i < |states| && j < |states|
  {
    var before, after := states[i].db, states[j].db;
    if h in before.invitations then
      && h in after.invitations && (Concerns(before, h, m) <==> Concerns(after, h, m))
      && (!Unspent(before.invitations[h]) ==> !Unspent(after.invitations[h]))
      && !MintedBetween(states, events, i, j, m, h)
    else
      Concerns(after, h, m) <==> MintedBetween(states, events, i, j, m, h)
  }

  lemma StepFollowed(s: State, e: Event, s': State, m: Id, h: Hash)
    requires Inv(s) && Next(s, e, s')
    ensures h in s.db.invitations ==>
              && h in s'.db.invitations && (Concerns(s.db, h, m) <==> Concerns(s'.db, h, m))
              && (!Unspent(s.db.invitations[h]) ==> !Unspent(s'.db.invitations[h]))
              && !(e.Write? && MintsFor(s.db, e.op, m, h))
    ensures h !in s.db.invitations ==> (Concerns(s'.db, h, m) <==> e.Write? && MintsFor(s.db, e.op, m, h))
    ensures h !in s.db.invitations && h in s'.db.invitations ==> e.Write? && e.op.Mint? && e.op.hash == h
  {
    if e.Write? {
      InvitationsGrow(s.db, e.op, m, h);
    } else if e.Advance? && s.txns[e.t].pc.Committing? {
      CommitKeepsInv(s, e.t);
      InvitationsGrow(s.db, OpOf(s.txns[e.t]), m, h);
    } else {
      if e.Advance? { StatementKeepsSound(s, e.t); }
    }
  }

  ghost predicate FollowedOnce(states: seq<State>, events: seq<Event>, k: nat, m: Id, h: Hash) {
    k + 1 < |states| && Followed(states, events, k, k + 1, m, h)
  }

  lemma StepFollowedAt(states: seq<State>, events: seq<Event>, k: nat, m: Id, h: Hash)
    requires Run(states, events) && k < |events|
    ensures FollowedOnce(states, events, k, m, h)
  {
    RunReaches(states, events, k);
    StepFollowed(states[k], events[k], states[k + 1], m, h);
    assert MintedBetween(states, events, k, k + 1, m, h) <==> MintedAt(states, events, k, m, h);
  }

  /** Two stretches, one after the other, are one. */
  lemma FollowedChains(states: seq<State>, events: seq<Event>, i: nat, k: nat, j: nat, m: Id, h: Hash)
    requires i <= k <= j < |states|
    requires Followed(states, events, i, k, m, h) && Followed(states, events, k, j, m, h)
    ensures Followed(states, events, i, j, m, h)
  {
    assert MintedBetween(states, events, i, j, m, h) <==>
           MintedBetween(states, events, i, k, m, h) || MintedBetween(states, events, k, j, m, h);
  }

  lemma {:induction false} StretchesFollowed(states: seq<State>, events: seq<Event>, i: nat, j: nat, m: Id, h: Hash)
    requires i <= j < |states|
    requires forall k: nat :: i <= k < j ==> FollowedOnce(states, events, k, m, h)
    ensures Followed(states, events, i, j, m, h)
    decreases j
  {
    if i < j {
      StretchesFollowed(states, events, i, j - 1, m, h);
      assert FollowedOnce(states, events, j - 1, m, h);
      FollowedChains(states, events, i, j - 1, j, m, h);
    }
  }

  lemma RunFollowed(states: seq<State>, events: seq<Event>, i: nat, j: nat, m: Id, h: Hash)
    requires Run(states, events) && i <= j <= |events|
    ensures Followed(states, events, i, j, m, h)
  {
    forall k: nat | i <= k < j ensures FollowedOnce(states, events, k, m, h) {
      StepFollowedAt(states, events, k, m, h);
    }
    StretchesFollowed(states, events, i, j, m, h);
  }

  /** The transaction is under way from state i to state j. */
  ghost predicate Alive(states: seq<State>, t: Tid, i: nat, j: nat) {
    j < |states| && forall k :: i <= k <= j ==> t in states[k].txns
  }

  /** The run from a deletion's revoking statement, at i, to its commit, at j. */
  ghost predicate Deleting(states: seq<State>, events: seq<Event>, t: Tid, i: nat, j: nat) {
    && Run(states, events) && i < j < |events|
    && Alive(states, t, i, j)
    && states[i].txns[t].job.Deletion? && states[i].txns[t].pc.Reading? && events[i] == Advance(t)
    && states[j].txns[t].pc.Committing? && events[j] == Advance(t)
  }

  /** A deletion of m that has taken its snapshot. */
  ghost predicate Snapped(s: State, t: Tid, m: Id, found: set<Hash>) {
    t in s.txns && s.txns[t].job == Deletion(m) && s.txns[t].snapshot == found
    && !s.txns[t].pc.Marking? && !s.txns[t].pc.Reading?
  }

  lemma SnapshotTaken(s: State, t: Tid)
    requires t in s.txns && s.txns[t].job.Deletion? && s.txns[t].pc.Reading?
    ensures Snapped(After(s, t), t, s.txns[t].job.mentor, Outstanding(s.db, s.txns[t].job.mentor))
  {
    assert After(s, t).txns[t].pc.Revoking?;
  }

  lemma SnapshotStays(s: State, e: Event, s': State, t: Tid, m: Id, found: set<Hash>)
    requires Inv(s) && Next(s, e, s') && Snapped(s, t, m, found) && t in s'.txns
    ensures Snapped(s', t, m, found)
  {
    assert Sound(s.db, s.txns[t]);
    if e.Advance? && e.t != t { assert t in s'.txns - {e.t}; }
  }

  lemma SnapshotStaysAt(states: seq<State>, events: seq<Event>, k: nat, t: Tid, m: Id, found: set<Hash>)
    requires Run(states, events) && k < |events| && Snapped(states[k], t, m, found) && t in states[k + 1].txns
    ensures Snapped(states[k + 1], t, m, found)
  {
    RunReaches(states, events, k);
    SnapshotStays(states[k], events[k], states[k + 1], t, m, found);
  }

  lemma {:induction false} SnapshotKept(states: seq<State>, events: seq<Event>, t: Tid, i: nat, j: nat, m: Id,
      found: set<Hash>)
    requires Run(states, events) && i <= j <= |events| && Alive(states, t, i, j) && Snapped(states[i], t, m, found)
    ensures Snapped(states[j], t, m, found)
    decreases j
  {
    if i < j {
      SnapshotKept(states, events, t, i, j - 1, m, found);
      SnapshotStaysAt(states, events, j - 1, t, m, found);
    }
  }

  /** Over a run: a deletion leaves nothing spendable for the mentor exactly when every
      invitation minted for them between its revoking statement and its commit has been
      spent by then. */
  lemma DeletionClosesUnlessMinted(states: seq<State>, events: seq<Event>, t: Tid, i: nat, j: nat)
    requires Deleting(states, events, t, i, j)
    ensures var m := states[i].txns[t].job.mentor;
            Outstanding(states[j + 1].db, m) == {} <==>
              forall h :: MintedBetween(states, events, i, j, m, h) ==>
                h in states[j].db.invitations && !Unspent(states[j].db.invitations[h])
  {
    var m, s := states[i].txns[t].job.mentor, states[j];
    RunReaches(states, events, j);
    assert Next(states[i], events[i], states[i + 1]);
    SnapshotTaken(states[i], t);
    SnapshotKept(states, events, t, i + 1, j, m, Outstanding(states[i].db, m));
    DeletionClosesIff(s, t);
    forall h
      ensures h in Outstanding(s.db, m) && h !in s.txns[t].snapshot
         <==> MintedBetween(states, events, i, j, m, h) && h in s.db.invitations && Unspent(s.db.invitations[h])
      ensures MintedBetween(states, events, i, j, m, h) ==> h in s.db.invitations
    {
      RunFollowed(states, events, i, j, m, h);
    }
  }

  // ---- A run that leaves one open ------------------------------------------------------------------

  lemma RunExtends(states: seq<State>, events: seq<Event>, e: Event, s: State)
    requires Run(states, events) && Next(states[|events|], e, s)
    ensures Run(states + [s], events + [e])
  {
  }

  /** A lone deletion of a mentor without invitations reaches the end of its revoking
      statement. */
  lemma LoneDeletionReads(m: Id, q: Id) returns (states: seq<State>, events: seq<Event>)
    ensures Run(states, events) && |events| == 3 && events[2] == Advance(0)
    ensures var db := Tables(map[], map[q := Request(m, "done", false)], map[m := false], map[]);
            && states[2] == State(db, map[0 := Txn(Deletion(m), Reading, 0, 0, {}, {})], 0, [])
            && states[3] == State(db, map[0 := Txn(Deletion(m), Revoking({}), 0, 0, {}, {})], 0, [])
  {
    var db := Tables(map[], map[q := Request(m, "done", false)], map[m := false], map[]);
    var s0, s1 := State(db, map[], 0, []), State(db, map[0 := Txn(Deletion(m), Marking, 0, 0, {}, {})], 0, []);
    var s2 := State(db, map[0 := Txn(Deletion(m), Reading, 0, 0, {}, {})], 0, []);
    var s3 := State(db, map[0 := Txn(Deletion(m), Revoking({}), 0, 0, {}, {})], 0, []);
    assert Outstanding(db, m) == {};
    assert Next(s0, Begin(0, Deletion(m)), s1);
    assert Next(s1, Advance(0), s2);
    assert Next(s2, Advance(0), s3);
    states, events := [s0, s1, s2, s3], [Begin(0, Deletion(m)), Advance(0), Advance(0)];
  }

  /** Three more steps: an invitation is minted, the revoking statement ends, the deletion
      commits. */
  lemma MintedWhileDeleting(states: seq<State>, events: seq<Event>, m: Id, h: Hash, q: Id, expires: int)
      returns (longer: seq<State>, more: seq<Event>)
    requires Run(states, events)
    requires var s := states[|events|];
             && s.txns.Keys == {0} && s.txns[0].job == Deletion(m) && s.txns[0].pc == Revoking({})
             && h !in s.db.invitations && q in s.db.requests && s.db.requests[q].mentor == m
    ensures Run(longer, more) && more == events + [Write(Mint(h, q, expires)), Advance(0), Advance(0)]
    ensures |longer| == |states| + 3 && longer[..|states|] == states
    ensures 0 in longer[|events| + 1].txns && 0 in longer[|events| + 2].txns
    ensures longer[|events| + 2].txns[0].pc.Committing?
    ensures var db := longer[|more|].db;
            m in db.mentors && db.mentors[m] && forall now :: Live(db, h, now) <==> now < expires
  {
    var s, mint := states[|events|], Mint(h, q, expires);
    RunReaches(states, events, |events|);
    MintedMeanwhileSurvives(s, 0, h, q, expires);
    assert Sound(s.db, s.txns[0]);
    var s1 := s.(db := Apply(s.db, mint), log := s.log + [mint]);
    var s2 := After(s1, 0);
    longer, more := states + [s1], events + [Write(mint)];
    RunExtends(states, events, Write(mint), s1);
    RunExtends(longer, more, Advance(0), s2);
    longer, more := longer + [s2], more + [Advance(0)];
    RunExtends(longer, more, Advance(0), After(s2, 0));
    longer, more := longer + [After(s2, 0)], more + [Advance(0)];
  }

  /** The failure is reachable: from an empty start, a deletion during which an invitation
      is minted commits and leaves it spendable. */
  lemma OpenInvitationIsReachable(m: Id, q: Id, h: Hash, expires: int) returns (states: seq<State>, events: seq<Event>)
    ensures Deleting(states, events, 0, 2, 5) && |events| == 6 && states[2].txns[0].job == Deletion(m)
    ensures MintedBetween(states, events, 2, 5, m, h)
    ensures m in states[6].db.mentors && states[6].db.mentors[m] && h in Outstanding(states[6].db, m)
    ensures forall now :: Live(states[6].db, h, now) <==> now < expires
  {
    var first, begun := LoneDeletionReads(m, q);
    states, events := MintedWhileDeleting(first, begun, m, h, q, expires);
    assert states[2] == first[2] && states[3] == first[3] && events[2] == begun[2];
    assert MintedAt(states, events, 3, m, h);
    RunFollowed(states, events, 2, 6, m, h);
    assert Live(states[6].db, h, expires - 1);
  }
}
