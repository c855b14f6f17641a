/** What one request asks, what it is answered, and what it may write: the
    decisions shared by the serial and the interleaved controller
    (controller/app/api/nodes.py, controller/app/core/security.py). */
module Requests {
  import opened Wrappers
  import opened Tables
  import opened Security

  /** `ListRows` stands for the endpoints that only read whole tables. */
  datatype Call =
    | Register(payload: NodeBase)
    | Beat(nodeId: string)
    | GetNode(nodeId: string)
    | ListRows

  datatype Request = Request(headers: Headers, call: Call)

  datatype Response =
    | Created | Activated | Beaten | Fetched
    | Unidentified(why: AuthOutcome)
    | RevokedCert | ForeignRegister | ForeignBeat
    | NotFound | Duplicate
    | Conflict   // the unique constraint on node_id refused the insert
    | Failure    // any other exception
  {
    function Status(): nat {
      match this
      case Created => 201
      case Activated => 200
      case Beaten => 200
      case Fetched => 200
      case Unidentified(MissingHeaders) => 401
      case Unidentified(CnParseFailure) => 400
      case Unidentified(_) => 403
      case RevokedCert => 403
      case ForeignRegister => 403
      case ForeignBeat => 403
      case NotFound => 404
      case Duplicate => 409
      case Conflict => 500
      case Failure => 500
    }

    /** Exactly these responses leave an audit row behind. */
    predicate Audited() {
      RevokedCert? || ForeignRegister? || ForeignBeat? || Created? || Activated?
    }
  }

  predicate MayRegister(id: Identity, p: NodeBase) {
    (id.IsNode() && id.commonName == p.commonName) || id.IsController()
  }

  /** The request shows a certificate for `c`. */
  predicate IsBy(r: Request, c: string) {
    Authenticate(r.headers).Known? && Authenticate(r.headers).id.commonName == c
  }

  predicate IsRevoked(id: Identity, revoked: set<nat>) {
    id.serial.Some? && id.serial.value in revoked
  }

  /** Existence is checked after authorisation when registering and before it
      when beating. */
  function Decide(nodes: seq<NodeRow>, id: Identity, call: Call): Response {
    match call
    case Register(p) =>
      if !MayRegister(id, p) then ForeignRegister
      else if Find(nodes, p.nodeId).Some? then Duplicate
      else Created
    case Beat(nodeId) =>
      (match Find(nodes, nodeId)
       case None => NotFound
       case Some(i) =>
         if id.commonName != nodes[i].base.commonName then ForeignBeat
         else if nodes[i].base.state == Onboarding then Activated
         else Beaten)
    case GetNode(nodeId) => if Find(nodes, nodeId).Some? then Fetched else NotFound
    case ListRows => Fetched
  }

  function NewRow(p: NodeBase, now: int): NodeRow {
    NodeRow(p, now, now, None)
  }

  function Touched(row: NodeRow, activate: bool, now: int): NodeRow {
    row.(base := if activate then row.base.(state := Active) else row.base,
         updatedAt := now,
         lastHeartbeatAt := Some(now))
  }

  // ---------- the audit rows ----------

  function RevocationEvent(actor: string, serial: nat, now: int): AuditRow {
    AuditRow(actor, AuthFailure, CertTarget(PrintHex(serial)), Rejected, CertificateRevoked(PrintHex(serial)), now)
  }

  function ForeignRegisterEvent(actor: string, p: NodeBase, now: int): AuditRow {
    AuditRow(actor, AuthFailure, NodeTarget(p.nodeId), Rejected, MayNotRegister, now)
  }

  function ForeignBeatEvent(actor: string, nodeId: string, now: int): AuditRow {
    AuditRow(actor, AuthFailure, NodeTarget(nodeId), Rejected, MayNotBeatFor(nodeId), now)
  }

  function RegisterEvent(actor: string, p: NodeBase, now: int): AuditRow {
    AuditRow(actor, NodeRegister, NodeTarget(p.nodeId), Success, RegisteredAs(p.role, p.ipAddress), now)
  }

  function StateChangeEvent(actor: string, nodeId: string, now: int): AuditRow {
    AuditRow(actor, NodeStateChange, NodeTarget(nodeId), Success, Moved(Onboarding, Active), now)
  }

  /** The row a request answered in this way leaves, if any. */
  function EventFor(id: Identity, call: Call, response: Response, now: int): (e: Option<AuditRow>)
    ensures e.Some? ==> response.Audited() && e.value.actorCn == id.commonName && e.value.timestamp == now
    ensures e.Some? && IsRegistration(e.value) ==>
      response == Created && call.Register? && e.value.target == NodeTarget(call.payload.nodeId)
  {
    match response
    case RevokedCert =>
      if id.serial.Some? then Some(RevocationEvent(id.commonName, id.serial.value, now)) else None
    case ForeignRegister =>
      if call.Register? then Some(ForeignRegisterEvent(id.commonName, call.payload, now)) else None
    case ForeignBeat =>
      if call.Beat? then Some(ForeignBeatEvent(id.commonName, call.nodeId, now)) else None
    case Created =>
      if call.Register? then Some(RegisterEvent(id.commonName, call.payload, now)) else None
    case Activated =>
      if call.Beat? then Some(StateChangeEvent(id.commonName, call.nodeId, now)) else None
    case _ => None
  }
}
