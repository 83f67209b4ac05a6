/** Review capabilities as committed tables and the operations that commit: reviews,
    single-use invitations, the legacy request-id link, soft deletion. */
module Reviews {
  import opened Prelude

  type Id = nat
  type Hash = string

  datatype Invitation = Invitation(request: Id, expires: int, consumed: bool, revoked: bool)

  datatype Request = Request(mentor: Id, status: string, legacyRevoked: bool)

  datatype Review = Review(request: Id, content: string)

  /** `mentors` says which profiles are deleted. */
  datatype Tables = Tables(invitations: map<Hash, Invitation>, requests: map<Id, Request>,
                           mentors: map<Id, bool>, reviews: map<Id, Review>)

  predicate Unspent(i: Invitation) {
    !i.consumed && !i.revoked
  }

  /** The WHERE clause of the claim. */
  predicate Live(db: Tables, h: Hash, now: int) {
    h in db.invitations && Unspent(db.invitations[h]) && db.invitations[h].expires > now
  }

  predicate Reviewed(db: Tables, request: Id) {
    exists r :: r in db.reviews && db.reviews[r].request == request
  }

  /** The join finds nothing for a deleted mentor, whichever way the caller came in. */
  predicate Visible(db: Tables, request: Id, legacy: bool) {
    && request in db.requests
    && db.requests[request].mentor in db.mentors && !db.mentors[db.requests[request].mentor]
    && !(legacy && db.requests[request].legacyRevoked)
  }

  predicate Eligible(db: Tables, request: Id, legacy: bool) {
    Visible(db, request, legacy) && db.requests[request].status == "done" && !Reviewed(db, request)
  }

  /** Invitations for a mentor's requests. */
  predicate Concerns(db: Tables, h: Hash, m: Id) {
    h in db.invitations && db.invitations[h].request in db.requests &&
    db.requests[db.invitations[h].request].mentor == m
  }

  function Outstanding(db: Tables, m: Id): set<Hash> {
    set h | h in db.invitations && Concerns(db, h, m) && Unspent(db.invitations[h])
  }

  function Consume(invitations: map<Hash, Invitation>, h: Hash): map<Hash, Invitation>
    requires h in invitations
  {
    invitations[h := invitations[h].(consumed := true)]
  }

  function Revoke(invitations: map<Hash, Invitation>, hs: set<Hash>): map<Hash, Invitation> {
    map h | h in invitations :: if h in hs then invitations[h].(revoked := true) else invitations[h]
  }

  // ---- Operations -------------------------------------------------------------------

  datatype Op =
    | Submit(review: Id, request: Id, content: string, via: Option<Hash>)
    | Delete(mentor: Id, revoked: set<Hash>)
    | Restore(mentor: Id)
    | Mint(hash: Hash, request: Id, expires: int)
    | Open(request: Id, mentor: Id)
    | SetStatus(request: Id, status: string)
    | RevokeLegacy(request: Id)

  /** What the unique indexes, row locks and WHERE clauses still guarantee at commit.
      Eligibility is not among it: it was read earlier in the transaction. */
  predicate Allowed(db: Tables, op: Op) {
    match op
    case Submit(review, request, _, via) =>
      && review !in db.reviews && !Reviewed(db, request) && request in db.requests
      && (via.Some? ==> via.value in db.invitations && Unspent(db.invitations[via.value])
                        && db.invitations[via.value].request == request)
    case Delete(m, revoked) =>
      && m in db.mentors && !db.mentors[m]
      && forall h :: h in revoked ==> Concerns(db, h, m) && Unspent(db.invitations[h])
    case Restore(m) => m in db.mentors && db.mentors[m]
    case Mint(h, request, _) => h !in db.invitations && request in db.requests
    case Open(request, m) => request !in db.requests && m in db.mentors
    case SetStatus(request, _) => request in db.requests
    case RevokeLegacy(request) => request in db.requests
  }

  function Apply(db: Tables, op: Op): Tables
    requires Allowed(db, op)
  {
    match op
    case Submit(review, request, content, via) =>
      db.(reviews := db.reviews[review := Review(request, content)],
          invitations := if via.Some? then Consume(db.invitations, via.value) else db.invitations)
    case Delete(m, revoked) => db.(mentors := db.mentors[m := true], invitations := Revoke(db.invitations, revoked))
    case Restore(m) => db.(mentors := db.mentors[m := false])
    case Mint(h, request, expires) =>
      db.(invitations := db.invitations[h := Invitation(request, expires, false, false)])
    case Open(request, m) => db.(requests := db.requests[request := Request(m, "pending", false)])
    case SetStatus(request, status) => db.(requests := db.requests[request := db.requests[request].(status := status)])
    case RevokeLegacy(request) => db.(requests := db.requests[request := db.requests[request].(legacyRevoked := true)])
  }

  ghost predicate Legal(db: Tables, ops: seq<Op>)
    decreases |ops|, 0
  {
    ops == [] || (Legal(db, ops[..|ops| - 1]) && Allowed(Replay(db, ops[..|ops| - 1]), ops[|ops| - 1]))
  }

  ghost function Replay(db: Tables, ops: seq<Op>): Tables
    requires Legal(db, ops)
    decreases |ops|, 1
  {
    if ops == [] then db else Apply(Replay(db, ops[..|ops| - 1]), ops[|ops| - 1])
  }

  // ---- What the tables promise --------------------------------------------------------

  /** The foreign keys. */
  ghost predicate Linked(db: Tables) {
    && (forall h :: h in db.invitations ==> db.invitations[h].request in db.requests)
    && (forall q :: q in db.requests ==> db.requests[q].mentor in db.mentors)
    && (forall r :: r in db.reviews ==> db.reviews[r].request in db.requests)
  }

  function Consumed(db: Tables): set<Hash> {
    set h | h in db.invitations && db.invitations[h].consumed
  }

  /** One review per request; a consumed invitation stands beside a review, alone for
      its request, and is never a revoked one. */
  ghost predicate WellKept(db: Tables) {
    && Linked(db)
    && (forall r, q :: r in db.reviews && q in db.reviews && db.reviews[r].request == db.reviews[q].request ==> r == q)
    && (forall h :: h in db.invitations && db.invitations[h].consumed ==> Reviewed(db, db.invitations[h].request))
    && (forall h, g :: h in Consumed(db) && g in Consumed(db) && db.invitations[h].request == db.invitations[g].request
          ==> h == g)
    && (forall h :: h in db.invitations ==> !(db.invitations[h].consumed && db.invitations[h].revoked))
  }

  lemma ReviewsStay(db: Tables, op: Op, request: Id)
    requires Allowed(db, op) && Reviewed(db, request)
    ensures Reviewed(Apply(db, op), request)
  {
    var r :| r in db.reviews && db.reviews[r].request == request;
    assert r in Apply(db, op).reviews;
  }

  lemma ConsumedIsReviewed(db: Tables, op: Op, h: Hash)
    requires WellKept(db) && Allowed(db, op) && h in Apply(db, op).invitations && Apply(db, op).invitations[h].consumed
    ensures Reviewed(Apply(db, op), Apply(db, op).invitations[h].request)
  {
    if h in db.invitations && db.invitations[h].consumed {
      ReviewsStay(db, op, db.invitations[h].request);
    } else {
      assert op.review in Apply(db, op).reviews;
    }
  }

  lemma OpKeepsLinked(db: Tables, op: Op)
    requires Linked(db) && Allowed(db, op)
    ensures Linked(Apply(db, op))
  {
  }

  lemma ReviewsStayUnique(db: Tables, op: Op, r: Id, q: Id)
    requires WellKept(db) && Allowed(db, op) && r in Apply(db, op).reviews && q in Apply(db, op).reviews
    requires Apply(db, op).reviews[r].request == Apply(db, op).reviews[q].request
    ensures r == q
  {
  }

  lemma ConsumedStayAlone(db: Tables, op: Op, h: Hash, g: Hash)
    requires WellKept(db) && Allowed(db, op) && h in Consumed(Apply(db, op)) && g in Consumed(Apply(db, op))
    requires Apply(db, op).invitations[h].request == Apply(db, op).invitations[g].request
    ensures h == g && !Apply(db, op).invitations[h].revoked
  {
  }

  lemma OpKeepsWellKept(db: Tables, op: Op)
    requires WellKept(db) && Allowed(db, op)
    ensures WellKept(Apply(db, op))
  {
    OpKeepsLinked(db, op);
    forall h, g | h in Consumed(Apply(db, op)) && g in Consumed(Apply(db, op))
                  && Apply(db, op).invitations[h].request == Apply(db, op).invitations[g].request
      ensures h == g && !Apply(db, op).invitations[h].revoked
    {
      ConsumedStayAlone(db, op, h, g);
    }
    forall r, q | r in Apply(db, op).reviews && q in Apply(db, op).reviews
                  && Apply(db, op).reviews[r].request == Apply(db, op).reviews[q].request
      ensures r == q
    {
      ReviewsStayUnique(db, op, r, q);
    }
    forall h | h in Apply(db, op).invitations && Apply(db, op).invitations[h].consumed
      ensures Reviewed(Apply(db, op), Apply(db, op).invitations[h].request)
    {
      ConsumedIsReviewed(db, op, h);
    }
  }

  lemma {:induction false} HistoryKeepsWellKept(db: Tables, ops: seq<Op>)
    requires WellKept(db) && Legal(db, ops)
    ensures WellKept(Replay(db, ops))
  {
    if ops != [] {
      HistoryKeepsWellKept(db, ops[..|ops| - 1]);
      OpKeepsWellKept(Replay(db, ops[..|ops| - 1]), ops[|ops| - 1]);
    }
  }

  // ---- Accounting -------------------------------------------------------------------------

  function Written(ops: seq<Op>): set<Id> {
    if ops == [] then {}
    else Written(ops[..|ops| - 1]) + if ops[|ops| - 1].Submit? then {ops[|ops| - 1].review} else {}
  }

  function Spent(ops: seq<Op>): set<Hash> {
    if ops == [] then {}
    else
      var op := ops[|ops| - 1];
      Spent(ops[..|ops| - 1]) + if op.Submit? && op.via.Some? then {op.via.value} else {}
  }

  lemma OpSpends(db: Tables, op: Op)
    requires Allowed(db, op)
    ensures Apply(db, op).reviews.Keys == db.reviews.Keys + (if op.Submit? then {op.review} else {})
    ensures Consumed(Apply(db, op)) == Consumed(db) + (if op.Submit? && op.via.Some? then {op.via.value} else {})
  {
  }

  /** Reviews are exactly those submitted, and tokens consumed exactly those spent by
      a submission that stored one. */
  lemma {:induction false} OnlySubmissionsSpend(db: Tables, ops: seq<Op>)
    requires Legal(db, ops)
    ensures Replay(db, ops).reviews.Keys == db.reviews.Keys + Written(ops)
    ensures Consumed(Replay(db, ops)) == Consumed(db) + Spent(ops)
  {
    if ops != [] {
      OnlySubmissionsSpend(db, ops[..|ops| - 1]);
      OpSpends(Replay(db, ops[..|ops| - 1]), ops[|ops| - 1]);
    }
  }

  /** Neither deletion nor restoring nor time makes a spent token spendable again. */
  lemma SpentStaysSpent(db: Tables, op: Op, h: Hash)
    requires Allowed(db, op) && h in db.invitations
    ensures h in Apply(db, op).invitations
    ensures !Unspent(db.invitations[h]) ==> !Unspent(Apply(db, op).invitations[h])
    ensures Apply(db, op).invitations[h].request == db.invitations[h].request
    ensures Apply(db, op).invitations[h].expires == db.invitations[h].expires
  {
  }
}
