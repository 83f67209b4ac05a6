/** The request workflow: mentors move and decline on a status they read, admins
    override, and every write compares and sets on the status its caller read. */
module Requests {
  import opened Prelude

  type Id = nat
  type Pid = nat

  datatype Status = Waiting | Contacted | Working | Finished | Reschedule | Declined | Unavailable

  datatype Request = Request(mentor: Id, status: Status, reason: string)

  predicate IsTerminal(s: Status) {
    s in {Finished, Declined, Unavailable}
  }

  predicate CanTransitionTo(s: Status, to: Status) {
    !IsTerminal(s) &&
    match s
    case Waiting => to == Contacted || to == Declined
    case Contacted => to == Working || to == Declined
    case Working => to == Finished || to == Declined
    case _ => false
  }

  /** Who asks for what. */
  datatype Ask = Move(mentor: Id, to: Status) | Decline(mentor: Id, reason: string) | Override(mentor: Id, to: Status)

  datatype Proc =
    | Reading(request: Id, ask: Ask)
    | Writing(request: Id, ask: Ask, expected: Status)
    | Triggering(entry: nat)

  /** One applied write. */
  datatype Entry = Entry(request: Id, ask: Ask, from: Status)

  /** `log` are the writes that applied, in commit order; triggers refer to its entries. */
  datatype State = State(requests: map<Id, Request>, procs: map<Pid, Proc>, log: seq<Entry>,
                         fired: set<nat>, lost: set<nat>)

  function Target(ask: Ask): Status {
    if ask.Decline? then Declined else ask.to
  }

  /** The verdict the caller reaches on the row as read. */
  predicate Accepts(ask: Ask, from: Status) {
    match ask
    case Move(_, to) => CanTransitionTo(from, to)
    case Decline(_, _) => !IsTerminal(from)
    case Override(_, to) => from != to
  }

  /** Mentors' moves to done and declines through the decline path mail the mentee;
      admin overrides, and declines through the status path, do not. */
  predicate Triggers(ask: Ask) {
    (ask.Move? && ask.to == Finished) || ask.Decline?
  }

  function Written(row: Request, ask: Ask): Request {
    if ask.Decline? then row.(status := Declined, reason := ask.reason) else row.(status := ask.to)
  }

  function End(s: State, p: Pid): State {
    s.(procs := s.procs - {p})
  }

  function After(s: State, p: Pid): State
    requires p in s.procs
  {
    match s.procs[p]
    case Reading(r, ask) =>
      if r in s.requests && s.requests[r].mentor == ask.mentor && Accepts(ask, s.requests[r].status)
      then s.(procs := s.procs[p := Writing(r, ask, s.requests[r].status)])
      else End(s, p)
    case Writing(r, ask, expected) =>
      if r in s.requests && s.requests[r].status == expected then
        var written := s.(requests := s.requests[r := Written(s.requests[r], ask)],
                          log := s.log + [Entry(r, ask, expected)]);
        if Triggers(ask) then written.(procs := s.procs[p := Triggering(|s.log|)]) else End(written, p)
      else End(s, p)
    case Triggering(i) => End(s.(fired := s.fired + {i}), p)
  }

  datatype Event = Create(request: Id, mentor: Id) | Begin(p: Pid, request: Id, ask: Ask) | Step(p: Pid) | Die(p: Pid)

  ghost predicate Next(s: State, e: Event, s': State) {
    match e
    case Create(r, m) => r !in s.requests && s' == s.(requests := s.requests[r := Request(m, Waiting, "")])
    case Begin(p, r, ask) => p !in s.procs && s' == s.(procs := s.procs[p := Reading(r, ask)])
    case Step(p) => p in s.procs && s' == After(s, p)
    case Die(p) =>
      p in s.procs &&
      s' == if s.procs[p].Triggering? then End(s.(lost := s.lost + {s.procs[p].entry}), p) else End(s, p)
  }

  ghost predicate Initial(s: State) {
    s.procs == map[] && s.log == [] && s.fired == {} && s.lost == {}
  }

  ghost predicate Run(states: seq<State>, events: seq<Event>) {
    |states| == |events| + 1 && Initial(states[0]) &&
    forall i :: 0 <= i < |events| ==> Next(states[i], events[i], states[i + 1])
  }

  // ---- Legal edges ------------------------------------------------------------------

  /** Where a request stands after the log's entries for it. */
  function StatusAfter(start: Status, log: seq<Entry>, r: Id): Status {
    if log == [] then start
    else if log[|log| - 1].request == r then Target(log[|log| - 1].ask)
    else StatusAfter(start, log[..|log| - 1], r)
  }

  /** Status of a request the first state may not have had. */
  function Start(requests: map<Id, Request>, r: Id): Status {
    if r in requests then requests[r].status else Waiting
  }

  /** Every entry is a legal edge out of the status its request had when it committed. */
  ghost predicate LegalEdges(start: map<Id, Request>, log: seq<Entry>) {
    forall i :: 0 <= i < |log| ==>
      Accepts(log[i].ask, log[i].from) &&
        log[i].from == StatusAfter(Start(start, log[i].request), log[..i], log[i].request)
  }

  ghost predicate Inv(start: map<Id, Request>, s: State) {
    && start.Keys <= s.requests.Keys
    && (forall r :: r in s.requests ==> s.requests[r].status == StatusAfter(Start(start, r), s.log, r))
    && (forall i :: 0 <= i < |s.log| ==> s.log[i].request in s.requests)
    && (forall p :: p in s.procs && s.procs[p].Writing? ==> Accepts(s.procs[p].ask, s.procs[p].expected))
    && LegalEdges(start, s.log)
  }

  lemma {:induction false} NeverMoved(start: Status, log: seq<Entry>, r: Id)
    requires forall i :: 0 <= i < |log| ==> log[i].request != r
    ensures StatusAfter(start, log, r) == start
  {
    if log != [] { NeverMoved(start, log[..|log| - 1], r); }
  }

  lemma EdgesSnoc(start: map<Id, Request>, log: seq<Entry>, entry: Entry)
    requires LegalEdges(start, log) && Accepts(entry.ask, entry.from)
    requires entry.from == StatusAfter(Start(start, entry.request), log, entry.request)
    ensures LegalEdges(start, log + [entry])
    ensures forall r, first :: StatusAfter(first, log + [entry], r)
                            == if r == entry.request then Target(entry.ask) else StatusAfter(first, log, r)
  {
    var longer := log + [entry];
    assert longer[..|longer| - 1] == log;
    forall i | 0 <= i < |longer|
      ensures Accepts(longer[i].ask, longer[i].from)
           && longer[i].from == StatusAfter(Start(start, longer[i].request), longer[..i], longer[i].request)
    {
      assert longer[..i] == if i < |log| then log[..i] else log;
    }
  }

  lemma StepKeepsInv(start: map<Id, Request>, s: State, p: Pid)
    requires Inv(start, s) && p in s.procs
    ensures Inv(start, After(s, p))
  {
    if After(s, p).log != s.log {
      var entry := Entry(s.procs[p].request, s.procs[p].ask, s.procs[p].expected);
      assert After(s, p).log == s.log + [entry];
      EdgesSnoc(start, s.log, entry);
    }
  }

  lemma NextKeepsInv(start: map<Id, Request>, s: State, e: Event, s': State)
    requires Inv(start, s) && Next(s, e, s')
    ensures Inv(start, s')
  {
    match e
    case Create(r, m) => NeverMoved(Start(start, r), s.log, r);
    case Step(p) => StepKeepsInv(start, s, p);
    case _ =>
  }

  lemma {:induction false} EveryWriteIsALegalEdge(states: seq<State>, events: seq<Event>)
    requires Run(states, events)
    ensures Inv(states[0].requests, states[|events|])
  {
    if events != [] {
      EveryWriteIsALegalEdge(states[..|events|], events[..|events| - 1]);
      NextKeepsInv(states[0].requests, states[|events| - 1], events[|events| - 1], states[|events|]);
    }
  }

  /** The workflow: one step at a time towards done, or declined from anywhere on the way;
      a rescheduled request goes nowhere. */
  lemma EdgesAreTheWorkflow(s: Status, to: Status)
    ensures CanTransitionTo(s, to) <==>
              && s in {Waiting, Contacted, Working}
              && (to == Declined || (to in {Contacted, Working, Finished} && MovesLeft(to) + 1 == MovesLeft(s)))
    ensures CanTransitionTo(s, to) <==>
              (s, to) in {(Waiting, Contacted), (Contacted, Working), (Working, Finished),
                          (Waiting, Declined), (Contacted, Declined), (Working, Declined)}
  {
  }

  // ---- Three moves at most ------------------------------------------------------------

  function MovesLeft(s: Status): nat {
    match s
    case Waiting => 3
    case Contacted => 2
    case Working | Reschedule => 1
    case _ => 0
  }

  function Moves(log: seq<Entry>, r: Id): nat {
    if log == [] then 0 else Moves(log[..|log| - 1], r) + if log[|log| - 1].request == r then 1 else 0
  }

  /** No admin override of r in the log from entry i on. */
  ghost predicate NoOverride(log: seq<Entry>, r: Id, i: nat) {
    forall j :: i <= j < |log| && log[j].request == r ==> !log[j].ask.Override?
  }

  lemma MovesSnoc(log: seq<Entry>, entry: Entry, r: Id)
    ensures Moves(log + [entry], r) == Moves(log, r) + if entry.request == r then 1 else 0
  {
    assert (log + [entry])[..|log|] == log;
  }

  /** What passing from one state to a later one may do to a request's status: without an
      override, every move made uses up one left, and without a move nothing changes. */
  ghost predicate UsesUp(s: State, later: State, r: Id)
    requires r in s.requests
  {
    var made := Moves(later.log, r) - Moves(s.log, r);
    && r in later.requests && s.log <= later.log && made >= 0
    && (made == 0 ==> later.requests[r].status == s.requests[r].status)
    && (NoOverride(later.log, r, |s.log|) ==>
          made + MovesLeft(later.requests[r].status) <= MovesLeft(s.requests[r].status))
  }

  lemma UsesUpTransitive(s: State, mid: State, later: State, r: Id)
    requires r in s.requests && UsesUp(s, mid, r) && UsesUp(mid, later, r)
    ensures UsesUp(s, later, r)
  {
    assert forall j :: 0 <= j < |mid.log| ==> later.log[j] == mid.log[j];
    if NoOverride(later.log, r, |s.log|) {
      assert NoOverride(mid.log, r, |s.log|) && NoOverride(later.log, r, |mid.log|);
    }
  }

  /** A write that applies does so on the status its caller judged, however long ago. */
  lemma WriteUsesUp(s: State, p: Pid, r: Id)
    requires p in s.procs && s.procs[p].Writing? && r in s.requests
    requires Accepts(s.procs[p].ask, s.procs[p].expected)
    ensures UsesUp(s, After(s, p), r)
  {
    if After(s, p).log != s.log {
      var entry := Entry(s.procs[p].request, s.procs[p].ask, s.procs[p].expected);
      assert After(s, p).log == s.log + [entry] && After(s, p).log[|s.log|] == entry;
      MovesSnoc(s.log, entry, r);
    }
  }

  lemma NextUsesUp(start: map<Id, Request>, s: State, e: Event, s': State, r: Id)
    requires Inv(start, s) && Next(s, e, s') && r in s.requests
    ensures UsesUp(s, s', r)
  {
    if e.Step? && s.procs[e.p].Writing? { WriteUsesUp(s, e.p, r); }
  }

  lemma {:induction false} MovesRunOut(states: seq<State>, events: seq<Event>, k: nat, r: Id)
    requires Run(states, events) && k <= |events| && r in states[k].requests
    ensures UsesUp(states[k], states[|events|], r)
  {
    if k < |events| {
      var n := |events| - 1;
      MovesRunOut(states[..n + 1], events[..n], k, r);
      EveryWriteIsALegalEdge(states[..n + 1], events[..n]);
      NextUsesUp(states[0].requests, states[n], events[n], states[n + 1], r);
      UsesUpTransitive(states[k], states[n], states[n + 1], r);
    }
  }

  /** From any moment of any run, with any number of stale tabs in flight but no admin
      override from then on, a request moves at most as often as its status then allows,
      and so at most three times; a finished, declined or unavailable one stays as it is. */
  lemma AtMostThreeMoves(states: seq<State>, events: seq<Event>, k: nat, r: Id)
    requires Run(states, events) && k <= |events| && r in states[k].requests
    requires NoOverride(states[|events|].log, r, |states[k].log|)
    ensures r in states[|events|].requests
    ensures Moves(states[|events|].log, r) - Moves(states[k].log, r) <= MovesLeft(states[k].requests[r].status) <= 3
    ensures IsTerminal(states[k].requests[r].status) ==>
              states[|events|].requests[r].status == states[k].requests[r].status
  {
    MovesRunOut(states, events, k, r);
  }

  // ---- Ownership --------------------------------------------------------------------------

  /** Writes, made or under way, are on requests of the mentor they were asked for. */
  ghost predicate OwnWrites(s: State) {
    && (forall p :: p in s.procs && s.procs[p].Writing? ==>
          s.procs[p].request in s.requests && s.requests[s.procs[p].request].mentor == s.procs[p].ask.mentor)
    && (forall i :: 0 <= i < |s.log| ==>
          s.log[i].request in s.requests && s.requests[s.log[i].request].mentor == s.log[i].ask.mentor)
  }

  /** Nobody ever writes a request of another mentor, and a request keeps its mentor. */
  lemma {:induction false} OnlyOwnRequestsAreWritten(states: seq<State>, events: seq<Event>)
    requires Run(states, events)
    ensures OwnWrites(states[|events|])
    ensures forall r :: r in states[0].requests ==>
              r in states[|events|].requests && states[|events|].requests[r].mentor == states[0].requests[r].mentor
  {
    if events != [] {
      OnlyOwnRequestsAreWritten(states[..|events|], events[..|events| - 1]);
    }
  }

  // ---- Triggers ---------------------------------------------------------------------------

  predicate InFlight(s: State, i: nat) {
    exists p :: p in s.procs && s.procs[p] == Triggering(i)
  }

  ghost predicate TriggersSound(s: State) {
    && s.fired !! s.lost
    && (forall i: nat :: i in s.fired || i in s.lost || InFlight(s, i) <==> i < |s.log| && Triggers(s.log[i].ask))
    && (forall i: nat :: InFlight(s, i) ==> i !in s.fired && i !in s.lost)
    && (forall p, q :: p in s.procs && q in s.procs && p != q && s.procs[p].Triggering? && s.procs[q].Triggering? ==>
          s.procs[p].entry != s.procs[q].entry)
  }

  lemma InFlightFrame(s: State, s': State, p: Pid)
    requires s'.procs - {p} == s.procs - {p}
    requires p in s.procs ==> !s.procs[p].Triggering?
    requires p in s'.procs ==> !s'.procs[p].Triggering?
    ensures forall i: nat :: InFlight(s, i) <==> InFlight(s', i)
    ensures forall q :: q in s'.procs && s'.procs[q].Triggering? ==> q in s.procs && s.procs[q] == s'.procs[q]
  {
    assert forall q :: q != p ==> (q in s.procs <==> q in s'.procs) && (q in s.procs ==> s.procs[q] == s'.procs[q]) by {
      forall q | q != p ensures (q in s.procs <==> q in s'.procs) && (q in s.procs ==> s.procs[q] == s'.procs[q]) {
        assert q in s.procs - {p} <==> q in s'.procs - {p};
        if q in s.procs { assert (s.procs - {p})[q] == (s'.procs - {p})[q]; }
      }
    }
  }

  lemma LaunchKeepsTriggers(s: State, p: Pid)
    requires TriggersSound(s) && p in s.procs && s.procs[p].Writing?
    requires Triggers(s.procs[p].ask) && After(s, p).log != s.log
    ensures TriggersSound(After(s, p))
  {
    var s', n := After(s, p), |s.log|;
    forall i: nat ensures InFlight(s', i) <==> InFlight(s, i) || i == n {
      if InFlight(s, i) { var q :| q in s.procs && s.procs[q] == Triggering(i); assert s'.procs[q] == Triggering(i); }
      if i == n { assert s'.procs[p] == Triggering(n); }
    }
    assert !InFlight(s, n);
    forall q | q in s.procs && s.procs[q].Triggering?
      ensures s.procs[q].entry < n
    {
      assert InFlight(s, s.procs[q].entry);
    }
    assert forall i :: 0 <= i < n ==> s'.log[i] == s.log[i];
  }

  lemma LandKeepsTriggers(s: State, s': State, p: Pid)
    requires TriggersSound(s) && p in s.procs && s.procs[p].Triggering? && s'.procs == s.procs - {p} && s'.log == s.log
    requires || (s'.fired == s.fired + {s.procs[p].entry} && s'.lost == s.lost)
             || (s'.lost == s.lost + {s.procs[p].entry} && s'.fired == s.fired)
    ensures TriggersSound(s')
  {
    var n := s.procs[p].entry;
    assert InFlight(s, n);
    forall i: nat ensures InFlight(s', i) <==> InFlight(s, i) && i != n {
      if InFlight(s, i) && i != n {
        var q :| q in s.procs && s.procs[q] == Triggering(i);
        assert s'.procs[q] == Triggering(i);
      }
    }
  }

  lemma NextKeepsTriggers(s: State, e: Event, s': State)
    requires TriggersSound(s) && Next(s, e, s')
    ensures TriggersSound(s')
  {
    match e
    case Create(r, m) => assert forall i: nat :: InFlight(s, i) <==> InFlight(s', i);
    case Begin(p, r, ask) => InFlightFrame(s, s', p);
    case Step(p) =>
      if s.procs[p].Triggering? { LandKeepsTriggers(s, s', p); }
      else if s'.log != s.log && Triggers(s.procs[p].ask) { LaunchKeepsTriggers(s, p); }
      else {
        assert s'.procs - {p} == s.procs - {p};
        InFlightFrame(s, s', p);
        assert forall i :: 0 <= i < |s.log| ==> s'.log[i] == s.log[i];
      }
    case Die(p) =>
      if s.procs[p].Triggering? { LandKeepsTriggers(s, s', p); } else { InFlightFrame(s, s', p); }
  }

  /** The mentee is told of exactly the writes that applied and finish a request through
      a mentor's move to done or a decline, each once: told, on its way, or lost with a
      process that died. */
  lemma {:induction false} TriggersMatchWrites(states: seq<State>, events: seq<Event>)
    requires Run(states, events)
    ensures TriggersSound(states[|events|])
    ensures var s := states[|events|];
            && s.fired !! s.lost && (forall i :: i in s.fired + s.lost ==> !InFlight(s, i))
            && forall i: nat :: i in s.fired || i in s.lost || InFlight(s, i) <==>
                 i < |s.log| && (s.log[i].ask.Decline? || (s.log[i].ask.Move? && s.log[i].ask.to == Finished))
  {
    if events != [] {
      TriggersMatchWrites(states[..|events|], events[..|events| - 1]);
      NextKeepsTriggers(states[|events| - 1], events[|events| - 1], states[|events|]);
    }
  }

  // ---- The services ---------------------------------------------------------------------

  datatype Outcome =
    | Updated | NotFound | AccessDenied | InvalidTransition | CannotDecline | Unchanged | ConcurrentChange

  class RequestRepository {
    var requests: map<Id, Request>

    method UpdateStatus(r: Id, expected: Status, status: Status) returns (applied: bool)
      modifies this
      ensures applied <==> r in old(requests) && old(requests)[r].status == expected
      ensures requests == if applied then old(requests)[r := old(requests)[r].(status := status)] else old(requests)
      ensures applied && status != expected ==> !(r in requests && requests[r].status == expected)
    {
      applied := r in requests && requests[r].status == expected;
      if applied { requests := requests[r := requests[r].(status := status)]; }
    }

    method UpdateDecline(r: Id, expected: Status, reason: string) returns (applied: bool)
      modifies this
      ensures applied <==> r in old(requests) && old(requests)[r].status == expected
      ensures requests == if applied then old(requests)[r := Written(old(requests)[r], Decline(0, reason))]
                else old(requests)
      ensures applied ==> requests[r] == Request(old(requests)[r].mentor, Declined, reason)
      ensures applied && expected != Declined ==> !(r in requests && requests[r].status == expected)
    {
      applied := r in requests && requests[r].status == expected;
      if applied { requests := requests[r := requests[r].(status := Declined, reason := reason)]; }
    }
  }

  /** What a whole call comes to: an accepted ask on the row as read, written only if the
      row still stands there in `meanwhile`, the table as it is at the write. */
  predicate GoesThrough(read: map<Id, Request>, meanwhile: map<Id, Request>, r: Id, ask: Ask) {
    && r in read && read[r].mentor == ask.mentor && Accepts(ask, read[r].status)
    && r in meanwhile && meanwhile[r].status == read[r].status
  }

  class RequestService {
    const repo: RequestRepository
    var triggered: seq<Id>

    constructor (repo: RequestRepository)
      ensures this.repo == repo && triggered == []
    {
      this.repo := repo;
      triggered := [];
    }

    method UpdateStatus(mentor: Id, r: Id, to: Status, meanwhile: map<Id, Request>) returns (o: Outcome)
      modifies this`triggered, repo
      ensures o == Updated <==> GoesThrough(old(repo.requests), meanwhile, r, Move(mentor, to))
      ensures o == InvalidTransition <==> r in old(repo.requests) && old(repo.requests)[r].mentor == mentor
                                          && !CanTransitionTo(old(repo.requests)[r].status, to)
      ensures repo.requests == if o == Updated then meanwhile[r := Written(meanwhile[r], Move(mentor, to))]
                else meanwhile
      ensures triggered == old(triggered) + if o == Updated && to == Finished then [r] else []
      ensures o == Updated ==> repo.requests[r] == meanwhile[r].(status := to)
      ensures o == Updated ==> CanTransitionTo(meanwhile[r].status, to)
    {
      var read := repo.requests;
      repo.requests := meanwhile;
      if r !in read { return NotFound; }
      if read[r].mentor != mentor { return AccessDenied; }
      if !CanTransitionTo(read[r].status, to) { return InvalidTransition; }
      var applied := repo.UpdateStatus(r, read[r].status, to);
      if !applied { return ConcurrentChange; }
      if to == Finished { triggered := triggered + [r]; }
      return Updated;
    }

    method DeclineRequest(mentor: Id, r: Id, reason: string, meanwhile: map<Id, Request>) returns (o: Outcome)
      modifies this`triggered, repo
      ensures o == Updated <==> GoesThrough(old(repo.requests), meanwhile, r, Decline(mentor, reason))
      ensures o == CannotDecline <==> r in old(repo.requests) && old(repo.requests)[r].mentor == mentor
                                      && IsTerminal(old(repo.requests)[r].status)
      ensures repo.requests == if o == Updated then meanwhile[r := Written(meanwhile[r], Decline(mentor, reason))]
                else meanwhile
      ensures triggered == old(triggered) + if o == Updated then [r] else []
      ensures o == Updated <==>
                && r in old(repo.requests) && old(repo.requests)[r].mentor == mentor
                && old(repo.requests)[r].status in {Waiting, Contacted, Working, Reschedule}
                && r in meanwhile && meanwhile[r].status == old(repo.requests)[r].status
      ensures o == Updated ==> repo.requests[r] == Request(meanwhile[r].mentor, Declined, reason)
    {
      var read := repo.requests;
      repo.requests := meanwhile;
      if r !in read { return NotFound; }
      if read[r].mentor != mentor { return AccessDenied; }
      if read[r].status == Finished { return CannotDecline; }
      if IsTerminal(read[r].status) { return CannotDecline; }
      var applied := repo.UpdateDecline(r, read[r].status, reason);
      if !applied { return ConcurrentChange; }
      triggered := triggered + [r];
      return Updated;
    }

    /** The admin override: any other status, no mail. */
    method OverrideStatus(mentor: Id, r: Id, to: Status, meanwhile: map<Id, Request>) returns (o: Outcome)
      modifies repo
      ensures o == Updated <==> GoesThrough(old(repo.requests), meanwhile, r, Override(mentor, to))
      ensures repo.requests == if o == Updated then meanwhile[r := Written(meanwhile[r], Override(mentor, to))]
                else meanwhile
      ensures o == Updated <==>
                && r in old(repo.requests) && old(repo.requests)[r].mentor == mentor
                && old(repo.requests)[r].status != to
                && r in meanwhile && meanwhile[r].status == old(repo.requests)[r].status
      ensures o == Updated ==> repo.requests[r] == meanwhile[r].(status := to)
    {
      var read := repo.requests;
      repo.requests := meanwhile;
      if r !in read || read[r].mentor != mentor { return NotFound; }
      if read[r].status == to { return Unchanged; }
      var applied := repo.UpdateStatus(r, read[r].status, to);
      return if applied then Updated else ConcurrentChange;
    }
  }
}
