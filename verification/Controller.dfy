/** The controller handling one request at a time: a pure specification of a
    request, and the class whose handlers write, flush, commit and roll back
    (controller/app/api/nodes.py, core/security.py, core/audit.py, db/session.py). */
module Controller {
  import opened Wrappers
  import opened Tables
  import opened Security
  import opened Requests

  /** The committed tables and the process's in-memory state. */
  datatype Store = Store(
    nodes: seq<NodeRow>,
    audit: seq<AuditRow>,
    counter: multiset<Kind>,
    auth: multiset<AuthOutcome>,
    revoked: set<nat>)

  function Respond(s: Store, r: Request): Response {
    match Authenticate(r.headers)
    case Refused(why) => Unidentified(why)
    case Known(id) => if IsRevoked(id, s.revoked) then RevokedCert else Decide(s.nodes, id, r.call)
  }

  function AuthTally(r: Request, response: Response): multiset<AuthOutcome> {
    match Authenticate(r.headers)
    case Refused(why) => multiset{why}
    case Known(_) => if response.RevokedCert? then multiset{Accepted, RevokedSerial} else multiset{Accepted}
  }

  function NodesAfter(nodes: seq<NodeRow>, call: Call, response: Response, now: int): seq<NodeRow> {
    match call
    case Register(p) => if response.Created? then nodes + [NewRow(p, now)] else nodes
    case Beat(nodeId) =>
      var found := Find(nodes, nodeId);
      if found.Some? && (response.Activated? || response.Beaten?)
      then nodes[found.value := Touched(nodes[found.value], response.Activated?, now)]
      else nodes
    case _ => nodes
  }

  /** The row the request leaves in the log. */
  function Entry(r: Request, response: Response, now: int): Option<AuditRow> {
    match Authenticate(r.headers)
    case Refused(_) => None
    case Known(id) => EventFor(id, r.call, response, now)
  }

  /** One request, from arrival to response. */
  function Serve(s: Store, r: Request, now: int): Store {
    var response := Respond(s, r);
    var entry := AsSeq(Entry(r, response, now));
    s.(nodes := NodesAfter(s.nodes, r.call, response, now),
       audit := s.audit + entry,
       counter := s.counter + Kinds(entry),
       auth := s.auth + AuthTally(r, response))
  }

  lemma KindsOfOne(row: AuditRow)
    ensures Kinds([row]) == multiset{KindOf(row)}
  {
    assert [row] == [] + [row];
    KindsOfAppend([], row);
  }

  lemma ServeRefused(s: Store, r: Request, now: int, why: AuthOutcome)
    requires Authenticate(r.headers) == Refused(why)
    ensures Respond(s, r) == Unidentified(why)
    ensures Serve(s, r, now) == s.(auth := s.auth + multiset{why})
  {
  }

  lemma ServeRevoked(s: Store, r: Request, now: int, id: Identity)
    requires Authenticate(r.headers) == Known(id) && IsRevoked(id, s.revoked)
    ensures Respond(s, r) == RevokedCert
    ensures Serve(s, r, now)
         == s.(audit := s.audit + [RevocationEvent(id.commonName, id.serial.value, now)],
               counter := s.counter + multiset{Kind(AuthFailure, Rejected)},
               auth := s.auth + multiset{Accepted} + multiset{RevokedSerial})
  {
    assert s.auth + multiset{Accepted, RevokedSerial} == s.auth + multiset{Accepted} + multiset{RevokedSerial};
    KindsOfOne(RevocationEvent(id.commonName, id.serial.value, now));
  }

  ghost function WithEntry(s: Store, call: Call, response: Response, now: int, entry: seq<AuditRow>): Store {
    s.(nodes := NodesAfter(s.nodes, call, response, now),
       audit := s.audit + entry,
       counter := s.counter + Kinds(entry),
       auth := s.auth + multiset{Accepted})
  }

  lemma ServeLive(s: Store, r: Request, now: int, id: Identity)
    requires Authenticate(r.headers) == Known(id) && !IsRevoked(id, s.revoked)
    ensures Respond(s, r) == Decide(s.nodes, id, r.call)
    ensures var response := Respond(s, r);
      Serve(s, r, now) == WithEntry(s, r.call, response, now, AsSeq(EventFor(id, r.call, response, now)))
  {
  }

  /** The outcome of a dependency or a handler: a value, or an HTTPException. */
  datatype Result<T> = Ok(value: T) | Raise(response: Response)

  /** The node object a session holds that the database has not seen yet. */
  datatype Unflushed = Clean | Added(row: NodeRow) | Changed(index: nat, row: NodeRow)

  function Written(nodes: seq<NodeRow>, u: Unflushed): seq<NodeRow> {
    match u
    case Clean => nodes
    case Added(row) => nodes + [row]
    case Changed(i, row) => if i < |nodes| then nodes[i := row] else nodes
  }

  class Server {
    // committed tables
    var nodes: seq<NodeRow>
    var audit: seq<AuditRow>
    // process memory
    var counter: multiset<Kind>
    var auth: multiset<AuthOutcome>
    var revoked: set<nat>
    // the request's session: its unflushed node, and the tables as its transaction sees them
    var unflushed: Unflushed
    var txNodes: seq<NodeRow>
    var txAudit: seq<AuditRow>

    ghost function View(): Store
      reads this
    {
      Store(nodes, audit, counter, auth, revoked)
    }

    /** No transaction is open and nothing waits to be flushed. */
    ghost predicate Idle()
      reads this
    {
      unflushed == Clean && txNodes == nodes && txAudit == audit
    }

    constructor (nodes: seq<NodeRow>, audit: seq<AuditRow>)
      ensures Idle()
      ensures View() == Store(nodes, audit, multiset{}, multiset{}, {})
    {
      this.nodes, this.audit := nodes, audit;
      counter, auth, revoked := multiset{}, multiset{}, {};
      unflushed, txNodes, txAudit := Clean, nodes, audit;
    }

    /** Sends the session's node to the database; an insert that would repeat a
        `node_id` is refused by the unique constraint. */
    method Flush() returns (ok: bool)
      modifies this`unflushed, this`txNodes
      ensures ok == !(old(unflushed).Added? && Find(old(txNodes), old(unflushed).row.base.nodeId).Some?)
      ensures ok ==> txNodes == Written(old(txNodes), old(unflushed)) && unflushed == Clean
      ensures !ok ==> txNodes == old(txNodes) && unflushed == old(unflushed)
    {
      if unflushed.Added? && Find(txNodes, unflushed.row.base.nodeId).Some? {
        return false;
      }
      txNodes := Written(txNodes, unflushed);
      unflushed := Clean;
      return true;
    }

    /** Adds an audit row to the caller's transaction, then counts it. */
    method RecordEvent(event: AuditRow)
      requires !unflushed.Added?
      modifies this`unflushed, this`txNodes, this`txAudit, this`counter
      ensures txNodes == Written(old(txNodes), old(unflushed)) && unflushed == Clean
      ensures txAudit == old(txAudit) + [event]
      ensures counter == old(counter) + multiset{KindOf(event)}
    {
      var ok := Flush();
      txAudit := txAudit + [event];
      counter := counter + multiset{KindOf(event)};
    }

    method Commit()
      requires !unflushed.Added?
      modifies this`unflushed, this`txNodes, this`nodes, this`audit
      ensures nodes == Written(old(txNodes), old(unflushed)) && audit == txAudit
      ensures Idle()
    {
      var ok := Flush();
      nodes, audit := txNodes, txAudit;
    }

    method Rollback()
      modifies this`unflushed, this`txNodes, this`txAudit
      ensures Idle()
    {
      unflushed, txNodes, txAudit := Clean, nodes, audit;
    }

    method GetIdentity(h: Headers) returns (r: Result<Identity>)
      modifies this`auth
      ensures match Authenticate(h)
              case Refused(why) => r == Raise(Unidentified(why)) && auth == old(auth) + multiset{why}
              case Known(id) => r == Ok(id) && auth == old(auth) + multiset{Accepted}
    {
      if h.verify.None? || h.dn.None? {
        auth := auth + multiset{MissingHeaders};
        return Raise(Unidentified(MissingHeaders));
      }
      if h.verify.value != "SUCCESS" {
        auth := auth + multiset{VerifyFailure};
        return Raise(Unidentified(VerifyFailure));
      }
      var cn := ExtractCn(h.dn.value);
      if cn.None? {
        auth := auth + multiset{CnParseFailure};
        return Raise(Unidentified(CnParseFailure));
      }
      auth := auth + multiset{Accepted};
      return Ok(Identity(cn.value, ParseSerial(h.serial)));
    }

    /** How every refusal ends: recorded, committed, and only then raised. */
    method Refuse<T>(event: AuditRow, response: Response) returns (r: Result<T>)
      requires Idle()
      modifies this`unflushed, this`txNodes, this`txAudit, this`counter, this`nodes, this`audit
      ensures Idle() && r == Raise(response) && nodes == old(nodes)
      ensures audit == old(audit) + [event] && counter == old(counter) + multiset{KindOf(event)}
    {
      RecordEvent(event);
      Commit();
      return Raise(response);
    }

    /** A revoked certificate is refused, and the refusal is committed before
        the exception that rolls the session back is raised. */
    method RequireLive(id: Identity, now: int) returns (r: Result<Identity>)
      requires Idle()
      modifies this`auth, this`counter, this`audit, this`nodes, this`unflushed, this`txNodes, this`txAudit
      ensures Idle() && nodes == old(nodes)
      ensures !IsRevoked(id, revoked) ==>
                r == Ok(id) && audit == old(audit) && counter == old(counter) && auth == old(auth)
      ensures IsRevoked(id, revoked) ==>
                && r == Raise(RevokedCert)
                && audit == old(audit) + [RevocationEvent(id.commonName, id.serial.value, now)]
                && counter == old(counter) + multiset{Kind(AuthFailure, Rejected)}
                && auth == old(auth) + multiset{RevokedSerial}
    {
      if id.serial.Some? && id.serial.value in revoked {
        auth := auth + multiset{RevokedSerial};
        r := Refuse(RevocationEvent(id.commonName, id.serial.value, now), RevokedCert);
        return;
      }
      return Ok(id);
    }

    /** What every handler guarantees, whether it returns or raises. */
    twostate predicate Handled(id: Identity, call: Call, response: Response, now: int)
      reads this
    {
      var entry := AsSeq(EventFor(id, call, response, now));
      && response == Decide(old(nodes), id, call)
      && nodes == NodesAfter(old(nodes), call, response, now)
      && audit == old(audit) + entry
      && counter == old(counter) + Kinds(entry)
    }

    method RegisterNode(id: Identity, p: NodeBase, now: int) returns (r: Result<Response>)
      requires Idle()
      modifies this`counter, this`audit, this`nodes, this`unflushed, this`txNodes, this`txAudit
      ensures Handled(id, Register(p), if r.Ok? then r.value else r.response, now)
      ensures r.Ok? ==> Idle()
    {
      var isSelfRegistration := id.IsNode() && id.commonName == p.commonName;
      if !(isSelfRegistration || id.IsController()) {
        var event := ForeignRegisterEvent(id.commonName, p, now);
        KindsOfOne(event);
        r := Refuse(event, ForeignRegister);
        return;
      }
      if Find(nodes, p.nodeId).Some? {
        return Raise(Duplicate);
      }
      unflushed := Added(NewRow(p, now));
      var ok := Flush();
      if !ok {
        return Raise(Conflict);
      }
      var event := RegisterEvent(id.commonName, p, now);
      KindsOfOne(event);
      RecordEvent(event);
      Commit();
      return Ok(Created);
    }

    /** The accepted beat: the row is changed in the session, flushed with the
        state-change event or by the commit. */
    method TouchNode(id: Identity, i: nat, nodeId: string, now: int) returns (stateChanged: bool)
      requires Idle() && i < |nodes|
      modifies this`counter, this`audit, this`nodes, this`unflushed, this`txNodes, this`txAudit
      ensures Idle()
      ensures stateChanged == (old(nodes)[i].base.state == Onboarding)
      ensures nodes == old(nodes)[i := Touched(old(nodes)[i], stateChanged, now)]
      ensures stateChanged ==> var event := StateChangeEvent(id.commonName, nodeId, now);
                               audit == old(audit) + [event] && counter == old(counter) + multiset{KindOf(event)}
      ensures !stateChanged ==> audit == old(audit) && counter == old(counter)
    {
      var node := nodes[i];
      stateChanged := false;
      if node.base.state == Onboarding {
        node := node.(base := node.base.(state := Active));
        stateChanged := true;
      }
      node := node.(updatedAt := now, lastHeartbeatAt := Some(now));
      unflushed := Changed(i, node);
      if stateChanged {
        RecordEvent(StateChangeEvent(id.commonName, nodeId, now));
      }
      Commit();
    }

    method Heartbeat(id: Identity, nodeId: string, now: int) returns (r: Result<Response>)
      requires Idle()
      modifies this`counter, this`audit, this`nodes, this`unflushed, this`txNodes, this`txAudit
      ensures Handled(id, Beat(nodeId), if r.Ok? then r.value else r.response, now)
      ensures r.Ok? ==> Idle()
    {
      var found := Find(nodes, nodeId);
      if found.None? {
        return Raise(NotFound);
      }
      if id.commonName != nodes[found.value].base.commonName {
        var event := ForeignBeatEvent(id.commonName, nodeId, now);
        KindsOfOne(event);
        r := Refuse(event, ForeignBeat);
        return;
      }
      KindsOfOne(StateChangeEvent(id.commonName, nodeId, now));
      var stateChanged := TouchNode(id, found.value, nodeId, now);
      return Ok(if stateChanged then Activated else Beaten);
    }

    /** The path operation, and the session around it: any exception rolls
        back whatever has not been committed. */
    method Dispatch(id: Identity, call: Call, now: int) returns (response: Response)
      requires Idle()
      modifies this`counter, this`audit, this`nodes, this`unflushed, this`txNodes, this`txAudit
      ensures Idle() && Handled(id, call, response, now)
    {
      var result: Result<Response>;
      match call {
        case Register(p) => result := RegisterNode(id, p, now);
        case Beat(nodeId) => result := Heartbeat(id, nodeId, now);
        case GetNode(nodeId) =>
          result := if Find(nodes, nodeId).Some? then Ok(Fetched) else Raise(NotFound);
        case ListRows => result := Ok(Fetched);
      }
      if result.Raise? {
        Rollback();
        return result.response;
      }
      return result.value;
    }

    /** The dependency chain: identity, then revocation. */
    method Admit(r: Request, now: int) returns (who: Result<Identity>)
      requires Idle()
      modifies this
      ensures Idle()
      ensures who.Raise? ==> who.response == Respond(old(View()), r) && View() == Serve(old(View()), r, now)
      ensures who.Ok? ==> Authenticate(r.headers) == Known(who.value) && !IsRevoked(who.value, old(revoked))
      ensures who.Ok? ==> View() == old(View()).(auth := old(auth) + multiset{Accepted})
    {
      ghost var before := View();
      who := GetIdentity(r.headers);
      if who.Raise? {
        ServeRefused(before, r, now, who.response.why);
        return;
      }
      var id := who.value;
      who := RequireLive(id, now);
      if who.Raise? {
        ServeRevoked(before, r, now, id);
      }
    }

    /** One request: dependencies, then the path operation. */
    method Handle(r: Request, now: int) returns (response: Response)
      requires Idle()
      modifies this
      ensures Idle()
      ensures response == Respond(old(View()), r)
      ensures View() == Serve(old(View()), r, now)
    {
      ghost var before := View();
      var who := Admit(r, now);
      if who.Raise? {
        Rollback();
        return who.response;
      }
      ServeLive(before, r, now, who.value);
      response := Dispatch(who.value, r.call, now);
    }

    /** The background loop installs what a fetch returned. */
    method InstallCrl(serials: set<nat>)
      requires Idle()
      modifies this`revoked
      ensures Idle() && View() == old(View()).(revoked := serials)
    {
      revoked := serials;
    }
  }
}
