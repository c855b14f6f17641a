/** Who gets a node row, with any number of requests in flight
    (controller/app/api/nodes.py, controller/app/core/security.py). */
module Rights {
  import opened Wrappers
  import opened Tables
  import opened Security
  import opened Requests
  import opened Interleaving
  import opened Invariants
  import opened Safety
  import opened Admission

  /** A registration by a controller, or by the node whose common name it bears. */
  ghost predicate IsEntitled(r: Request) {
    r.call.Register? && exists c :: Shows(r.headers, c) && MayName(c, r.call.payload)
  }

  /** The request is on its way to store a row, or has stored one. */
  predicate IsCreating(phase: Phase) {
    match phase
    case Inserting => true
    case Recording(_, _, reply) => reply == Created
    case Counting(reply) => reply == Created
    case Committing(reply) => reply == Created
    case Closing(reply, _) => reply == Created
    case Answered(_, reply, _) => reply == Created
    case _ => false
  }

  ghost predicate RightsOk(s: System) {
    forall q :: q in s.flights && IsCreating(s.flights[q].phase) ==> IsEntitled(s.flights[q].request)
  }

  // ---------- one step ----------

  lemma DecidedCreated(nodes: seq<NodeRow>, r: Request)
    requires Authenticate(r.headers).Known? && Decide(nodes, Actor(r), r.call) == Created
    ensures IsEntitled(r)
  {
    var c := Authenticate(r.headers).id.commonName;
    AuthenticatesByHeaders(r.headers);
    hide Authenticate, Find, LacksHeader, IsUnverified, IsNameless;
    assert Shows(r.headers, c);
    hide Shows;
    assert MayName(c, r.call.payload);
  }

  lemma EnterCreates(s: System, q: nat, now: int)
    requires q in s.flights && q in Enter(s, q, now).flights && IsCreating(Enter(s, q, now).flights[q].phase)
    requires Authenticate(s.flights[q].request.headers).Known?
    ensures IsEntitled(s.flights[q].request)
  {
    var r := s.flights[q].request;
    assert Decide(s.nodes, Actor(r), r.call) == Created by {
      hide Authenticate, Find, Actor, StateChangeEvent, ForeignRegisterEvent, ForeignBeatEvent;
    }
    hide Enter, Decide, Actor;
    DecidedCreated(s.nodes, r);
  }

  lemma ReadsDoNotCreate(s: System, q: nat, now: int)
    requires q in s.flights
    ensures q in ReadIdentity(s, q).flights && !IsCreating(ReadIdentity(s, q).flights[q].phase)
    ensures !IsCreating(s.flights[q].phase) ==>
              q in CheckRevocation(s, q, now).flights && !IsCreating(CheckRevocation(s, q, now).flights[q].phase)
  {
    hide Authenticate, IsRevoked, Actor, RevocationEvent;
  }

  lemma WritesDoNotCreate(s: System, q: nat, now: int)
    requires q in s.flights && !IsCreating(s.flights[q].phase)
    requires !s.flights[q].phase.Received? && !s.flights[q].phase.Identified? && !s.flights[q].phase.Admitted?
    ensures q in Progress(s, q, now).flights
    ensures s.flights[q].phase.Updating? || !IsCreating(Progress(s, q, now).flights[q].phase)
  {
    hide Enter, InsertNode, ReadIdentity, CheckRevocation, Applied;
  }

  lemma UpdatesDoNotCreate(s: System, q: nat, now: int)
    requires Inv(s) && q in s.flights && s.flights[q].phase.Updating?
    ensures q in Progress(s, q, now).flights && !IsCreating(Progress(s, q, now).flights[q].phase)
  {
    assert FlightOk(s, q, s.flights[q]);
    hide TablesOk, FlightsOk, WriterOk, AuthorsOk, CounterOk, UpdateOk;
  }

  lemma BecomesCreating(s: System, q: nat, now: int)
    requires Inv(s) && q in s.flights && !IsCreating(s.flights[q].phase)
    requires q in Progress(s, q, now).flights && IsCreating(Progress(s, q, now).flights[q].phase)
    ensures IsEntitled(s.flights[q].request)
  {
    match s.flights[q].phase
    case Received => hide Inv, ReadIdentity; ReadsDoNotCreate(s, q, now);
    case Identified => hide Inv, CheckRevocation; ReadsDoNotCreate(s, q, now);
    case Admitted =>
      assert Authenticate(s.flights[q].request.headers).Known? by { assert FlightOk(s, q, s.flights[q]); }
      hide Inv, Enter;
      EnterCreates(s, q, now);
    case Updating(_, _) => hide Progress; UpdatesDoNotCreate(s, q, now);
    case _ => hide Inv, Progress; WritesDoNotCreate(s, q, now);
  }

  lemma AbandonDoesNotCreate(s: System, q: nat)
    requires q in s.flights
    ensures MovesOne(s, Abandon(s, q), q)
    ensures IsCreating(Abandon(s, q).flights[q].phase) ==> IsCreating(s.flights[q].phase)
  {
    hide Uncommitted;
  }

  lemma StepKeepsRights(s: System, e: Event)
    requires Inv(s) && RightsOk(s)
    ensures RightsOk(Step(s, e))
  {
    hide Inv, Progress, Abandon, IsEntitled;
    match e
    case Advance(q, now) =>
      if q in s.flights {
        hide IsCreating;
        ProgressMovesOne(s, q, now);
        if IsCreating(Progress(s, q, now).flights[q].phase) && !IsCreating(s.flights[q].phase) {
          BecomesCreating(s, q, now);
        }
      }
    case Fail(q) => if q in s.flights { AbandonDoesNotCreate(s, q); }
    case _ =>
  }

  // ---------- the rows ----------

  lemma CommitInserts(s: System, q: nat, now: int, i: nat)
    requires Inv(s) && q in s.flights && s.flights[q].phase.Committing? && |s.nodes| <= i < |Progress(s, q, now).nodes|
    ensures IsCreating(s.flights[q].phase) && s.flights[q].request.call.Register?
    ensures Progress(s, q, now).nodes[i].base == s.flights[q].request.call.payload
  {
    assert FlightOk(s, q, s.flights[q]);
    hide TablesOk, FlightsOk, AuthorsOk, CounterOk, UpdateOk, EventFor, Find;
  }

  /** A row that a step adds is the payload of a request that is entitled to it. */
  lemma StepInserts(s: System, e: Event, i: nat)
    requires Inv(s) && RightsOk(s) && |s.nodes| <= i < |Step(s, e).nodes|
    ensures e.Advance? && e.q in s.flights && IsEntitled(s.flights[e.q].request)
    ensures Step(s, e).nodes[i].base == s.flights[e.q].request.call.payload
  {
    hide Inv, Progress, Abandon, IsEntitled, IsCreating;
    match e
    case Advance(q, now) =>
      if q in s.flights {
        if s.flights[q].phase.Committing? {
          CommitInserts(s, q, now, i);
        } else {
          ProgressKeepsTables(s, q, now);
        }
      }
    case Fail(q) => if q in s.flights { AbandonKeepsNodes(s, q); }
    case _ =>
  }

  /** The request was in flight or arrives in the run. */
  ghost predicate IsHere(s: System, es: seq<Event>, r: Request) {
    || (exists q :: q in s.flights && s.flights[q].request == r)
    || (exists k :: 0 <= k < |es| && es[k] == Arrive(r))
  }

  lemma StillHere(s: System, es: seq<Event>, r: Request)
    requires es != [] && IsHere(Step(s, es[0]), es[1..], r)
    ensures IsHere(s, es, r)
  {
    if k :| 0 <= k < |es[1..]| && es[1..][k] == Arrive(r) {
      assert es[k + 1] == Arrive(r);
    } else {
      var t := Step(s, es[0]);
      var q :| q in t.flights && t.flights[q].request == r;
      if es[0].Advance? || es[0].Fail? {
        RequestsStay(s, es[0], q);
      }
    }
  }

  lemma RequestsStay(s: System, e: Event, q: nat)
    requires (e.Advance? || e.Fail?) && q in Step(s, e).flights
    ensures q in s.flights && Step(s, e).flights[q].request == s.flights[q].request
  {
    hide Progress, Abandon;
    if e.q in s.flights {
      if e.Advance? {
        ProgressMovesOne(s, e.q, e.now);
      } else {
        AbandonDoesNotCreate(s, e.q);
      }
    }
  }

  /** The row is what this request is entitled to store. */
  ghost predicate Stores(r: Request, row: NodeRow) {
    IsEntitled(r) && IsPayload(row, r.call.payload)
  }

  ghost predicate IsRightful(s: System, es: seq<Event>, row: NodeRow) {
    exists r :: IsHere(s, es, r) && Stores(r, row)
  }

  lemma CarriedIsStored(r: Request, before: NodeRow, after: NodeRow)
    requires IsEntitled(r) && before.base == r.call.payload && Carried(before, after)
    ensures Stores(r, after)
  {
  }

  /** In every interleaving every row added to the table is the payload, up to
      activation, of a registration by a controller or by the node it names. */
  lemma {:induction false} EveryRowIsRightful(s: System, es: seq<Event>)
    requires Inv(s) && RightsOk(s)
    ensures forall i :: |s.nodes| <= i < |Run(s, es).nodes| ==> IsRightful(s, es, Run(s, es).nodes[i])
    decreases |es|
  {
    hide Step, Inv, RightsOk, IsEntitled, Stores, IsHere;
    if es != [] {
      var t := Step(s, es[0]);
      StepKeepsInv(s, es[0]);
      StepKeepsRights(s, es[0]);
      RowsOnlyActivate(t, es[1..]);
      EveryRowIsRightful(t, es[1..]);
      forall i | |s.nodes| <= i < |Run(s, es).nodes| ensures IsRightful(s, es, Run(s, es).nodes[i]) {
        if i < |t.nodes| {
          StepInserts(s, es[0], i);
          var r := s.flights[es[0].q].request;
          CarriedIsStored(r, t.nodes[i], Run(s, es).nodes[i]);
          FlightIsHere(s, es, es[0].q);
        } else {
          assert IsRightful(t, es[1..], Run(s, es).nodes[i]);
          var r :| IsHere(t, es[1..], r) && Stores(r, Run(s, es).nodes[i]);
          StillHere(s, es, r);
        }
      }
    }
  }

  lemma FlightIsHere(s: System, es: seq<Event>, q: nat)
    requires q in s.flights
    ensures IsHere(s, es, s.flights[q].request)
  {
  }

  /** The run has an arrival that is entitled to store the row. */
  ghost predicate HasArrivalFor(es: seq<Event>, row: NodeRow) {
    exists k :: 0 <= k < |es| && es[k].Arrive? && Stores(es[k].request, row)
  }

  lemma OnlyArrivals(s: System, es: seq<Event>, row: NodeRow)
    requires s.flights == map[] && IsRightful(s, es, row)
    ensures HasArrivalFor(es, row)
  {
    hide Stores;
    var r :| IsHere(s, es, r) && Stores(r, row);
    var k :| 0 <= k < |es| && es[k] == Arrive(r);
  }

  lemma StartIsEmpty(nodes: seq<NodeRow>, audit: seq<AuditRow>, next: nat)
    ensures var s := Start(nodes, audit, next); s.flights == map[] && s.nodes == nodes && RightsOk(s)
  {
  }

  /** From any start: only arrivals of the run itself can have stored its rows. */
  lemma {:induction false} EveryRowIsRightfulFromStart(
      nodes: seq<NodeRow>, audit: seq<AuditRow>, next: nat, es: seq<Event>)
    requires Distinct(nodes) && Ids(nodes) == RegisteredIds(audit)
    ensures var t := Run(Start(nodes, audit, next), es);
      forall i :: |nodes| <= i < |t.nodes| ==> HasArrivalFor(es, t.nodes[i])
  {
    StartIsInv(nodes, audit, next);
    StartIsEmpty(nodes, audit, next);
    hide Run, Inv, RightsOk, Start, IsRightful, HasArrivalFor;
    var s := Start(nodes, audit, next);
    EveryRowIsRightful(s, es);
    forall i | |nodes| <= i < |Run(s, es).nodes| ensures HasArrivalFor(es, Run(s, es).nodes[i]) {
      OnlyArrivals(s, es, Run(s, es).nodes[i]);
    }
  }
}
