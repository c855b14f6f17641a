/** Any number of requests in flight at once. Every handler is split at its
    awaits; reads take no lock; the first flush of a request opens the
    database's single write transaction; the unique constraint is checked at
    that flush; commit and rollback are atomic
    (controller/app/api/nodes.py, core/security.py, core/audit.py, db/session.py). */
module Interleaving {
  import opened Wrappers
  import opened Tables
  import opened Security
  import opened Requests

  /** An UPDATE of a node row: only the columns the handler changed are written. */
  datatype Update = Update(row: nat, activate: bool, at: int)

  /** The open write transaction: what its owner has flushed so far. */
  datatype Txn = Txn(
    owner: nat,
    insert: Option<NodeRow>,
    update: Option<Update>,
    event: Option<AuditRow>,
    counted: bool)

  /** Where a request is waiting. `reply` is what the handler is bound to answer. */
  datatype Phase =
    | Received
    | Identified                                                   // certificate read, revocation not checked
    | Admitted                                                     // the path operation is about to run
    | Inserting                                                    // no such node seen; the node flush is next
    | Recording(event: AuditRow, update: Option<Update>, reply: Response)  // the flush in record_event is next
    | Counting(reply: Response)                                    // flushed; the counter is next
    | Updating(change: Update, reply: Response)                    // a routine beat: commit flushes the node first
    | Committing(reply: Response)
    | Closing(reply: Response, logged: Option<nat>)                // committed; refresh, or the raise and its rollback
    | Answered(response: Response, reply: Response, logged: Option<nat>)

  datatype Flight = Flight(request: Request, phase: Phase)

  /** `base`, `authors` and `lost` are history: the length of the log at the last
      start, the request behind each row since, and the counted rows that a
      rollback removed. */
  datatype System = System(
    nodes: seq<NodeRow>,
    audit: seq<AuditRow>,
    counter: multiset<Kind>,
    auth: multiset<AuthOutcome>,
    revoked: set<nat>,
    writer: Option<Txn>,
    flights: map<nat, Flight>,
    next: nat,
    base: nat,
    authors: seq<nat>,
    lost: multiset<Kind>)

  datatype Event =
    | Arrive(request: Request)
    | Advance(q: nat, now: int)
    | Fail(q: nat)                 // an exception or a cancellation at the await where q waits
    | Install(serials: set<nat>)
    | Restart

  function Actor(r: Request): Identity {
    match Authenticate(r.headers)
    case Known(id) => id
    case Refused(_) => Identity("", None)
  }

  function Move(s: System, q: nat, phase: Phase): (t: System)
    requires q in s.flights
  {
    s.(flights := s.flights[q := s.flights[q].(phase := phase)])
  }

  function Answer(s: System, q: nat, response: Response): System
    requires q in s.flights
  {
    Move(s, q, Answered(response, response, None))
  }

  predicate Owns(s: System, q: nat) {
    s.writer.Some? && s.writer.value.owner == q
  }

  /** The path operation up to its first write. */
  function Enter(s: System, q: nat, now: int): System
    requires q in s.flights
  {
    var r := s.flights[q].request;
    var reply := Decide(s.nodes, Actor(r), r.call);
    match reply
    case Created => Move(s, q, Inserting)
    case Activated =>
      Move(s, q, Recording(StateChangeEvent(Actor(r).commonName, r.call.nodeId, now),
                           Some(Update(Find(s.nodes, r.call.nodeId).value, true, now)), reply))
    case Beaten => Move(s, q, Updating(Update(Find(s.nodes, r.call.nodeId).value, false, now), reply))
    case ForeignRegister =>
      Move(s, q, Recording(ForeignRegisterEvent(Actor(r).commonName, r.call.payload, now), None, reply))
    case ForeignBeat =>
      Move(s, q, Recording(ForeignBeatEvent(Actor(r).commonName, r.call.nodeId, now), None, reply))
    case _ => Answer(s, q, reply)
  }

  function Applied(nodes: seq<NodeRow>, t: Txn): seq<NodeRow> {
    var touched :=
      if t.update.Some? && t.update.value.row < |nodes|
      then nodes[t.update.value.row := Touched(nodes[t.update.value.row], t.update.value.activate, t.update.value.at)]
      else nodes;
    touched + AsSeq(t.insert)
  }

  function Commit(s: System, q: nat, reply: Response): System
    requires q in s.flights && s.writer.Some?
  {
    var t := s.writer.value;
    var logged := if t.event.Some? then Some(|s.audit|) else None;
    Move(s.(nodes := Applied(s.nodes, t),
            audit := s.audit + AsSeq(t.event),
            authors := s.authors + (if t.event.Some? then [q] else []),
            writer := None),
         q, Closing(reply, logged))
  }

  // One function for each place a request can wait at.

  function ReadIdentity(s: System, q: nat): System
    requires q in s.flights
  {
    match Authenticate(s.flights[q].request.headers)
    case Refused(why) => Answer(s.(auth := s.auth + multiset{why}), q, Unidentified(why))
    case Known(_) => Move(s.(auth := s.auth + multiset{Accepted}), q, Identified)
  }

  function CheckRevocation(s: System, q: nat, now: int): System
    requires q in s.flights
  {
    var id := Actor(s.flights[q].request);
    if IsRevoked(id, s.revoked)
    then Move(s.(auth := s.auth + multiset{RevokedSerial}), q,
              Recording(RevocationEvent(id.commonName, id.serial.value, now), None, RevokedCert))
    else Move(s, q, Admitted)
  }

  /** The node flush opens the write transaction, or meets the unique constraint. */
  function InsertNode(s: System, q: nat, now: int): System
    requires q in s.flights
  {
    var r := s.flights[q].request;
    if s.writer.Some? || !r.call.Register? then s
    else if Find(s.nodes, r.call.payload.nodeId).Some? then Answer(s, q, Conflict)
    else Move(s.(writer := Some(Txn(q, Some(NewRow(r.call.payload, now)), None, None, false))), q,
              Recording(RegisterEvent(Actor(r).commonName, r.call.payload, now), None, Created))
  }

  /** The flush in `record_event` writes the event and any changed node. */
  function Record(s: System, q: nat, event: AuditRow, update: Option<Update>, reply: Response): System
    requires q in s.flights
  {
    if s.writer.None? then Move(s.(writer := Some(Txn(q, None, update, Some(event), false))), q, Counting(reply))
    else if Owns(s, q)
    then Move(s.(writer := Some(s.writer.value.(update := update, event := Some(event)))), q, Counting(reply))
    else s
  }

  function CountEvent(s: System, q: nat, reply: Response): System
    requires q in s.flights
  {
    if Owns(s, q) && s.writer.value.event.Some?
    then Move(s.(counter := s.counter + multiset{KindOf(s.writer.value.event.value)},
                 writer := Some(s.writer.value.(counted := true))), q, Committing(reply))
    else s
  }

  function FlushUpdate(s: System, q: nat, change: Update, reply: Response): System
    requires q in s.flights
  {
    if s.writer.None?
    then Move(s.(writer := Some(Txn(q, None, Some(change), None, false))), q, Committing(reply))
    else s
  }

  /** One step of request `q`; it stays put while it waits for the write lock. */
  function Progress(s: System, q: nat, now: int): System
    requires q in s.flights
  {
    match s.flights[q].phase
    case Received => ReadIdentity(s, q)
    case Identified => CheckRevocation(s, q, now)
    case Admitted => Enter(s, q, now)
    case Inserting => InsertNode(s, q, now)
    case Recording(event, update, reply) => Record(s, q, event, update, reply)
    case Counting(reply) => CountEvent(s, q, reply)
    case Updating(change, reply) => FlushUpdate(s, q, change, reply)
    case Committing(reply) => if Owns(s, q) then Commit(s, q, reply) else s
    case Closing(reply, logged) => Move(s, q, Answered(reply, reply, logged))
    case Answered(_, _, _) => s
  }

  function Uncommitted(s: System): multiset<Kind> {
    if s.writer.Some? && s.writer.value.counted && s.writer.value.event.Some?
    then multiset{KindOf(s.writer.value.event.value)}
    else multiset{}
  }

  /** `get_session` rolls back what `q` has flushed and not committed. */
  function RolledBack(s: System, q: nat): System {
    if Owns(s, q) then s.(writer := None, lost := s.lost + Uncommitted(s)) else s
  }

  function Abandon(s: System, q: nat): System
    requires q in s.flights
  {
    match s.flights[q].phase
    case Answered(_, _, _) => s
    case Closing(reply, logged) => Move(s, q, Answered(Failure, reply, logged))
    case _ => Move(RolledBack(s, q), q, Answered(Failure, Failure, None))
  }

  function Start(nodes: seq<NodeRow>, audit: seq<AuditRow>, next: nat): System {
    System(nodes, audit, multiset{}, multiset{}, {}, None, map[], next, |audit|, [], multiset{})
  }

  function Step(s: System, e: Event): System {
    match e
    case Arrive(r) => s.(flights := s.flights[s.next := Flight(r, Received)], next := s.next + 1)
    case Advance(q, now) => if q in s.flights then Progress(s, q, now) else s
    case Fail(q) => if q in s.flights then Abandon(s, q) else s
    case Install(serials) => s.(revoked := serials)
    case Restart => Start(s.nodes, s.audit, s.next)
  }

  function Run(s: System, es: seq<Event>): System
    decreases |es|
  {
    if es == [] then s else Run(Step(s, es[0]), es[1..])
  }
}
