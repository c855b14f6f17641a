/** Whole runs of the controller serving one request at a time. */
module Traces {
  import opened Wrappers
  import opened Tables
  import opened Security
  import opened Requests
  import opened Controller

  /** A restart keeps the committed tables and loses the process's memory. */
  datatype Event =
    | Incoming(request: Request, now: int)
    | CrlInstalled(serials: set<nat>)
    | Restart

  function Step(s: Store, e: Event): Store {
    match e
    case Incoming(r, now) => Serve(s, r, now)
    case CrlInstalled(serials) => s.(revoked := serials)
    case Restart => s.(counter := multiset{}, auth := multiset{}, revoked := {})
  }

  function Run(s: Store, es: seq<Event>): Store
    decreases |es|
  {
    if es == [] then s else Run(Step(s, es[0]), es[1..])
  }

  // ---------- the audit log against a keyed registry ----------

  /** What the policy needs to know of a node, and its last accepted beat. */
  datatype Entry = Entry(commonName: string, onboarding: bool, lastBeat: Option<int>)

  type Registry = map<string, Entry>

  /** The audit policy: one AUTH_FAILURE for a foreign registration or a foreign
      heartbeat, one NODE_REGISTER for a new node, one NODE_STATE_CHANGE for the
      first beat of an onboarding node, nothing otherwise. */
  function PolicyRows(reg: Registry, id: Identity, call: Call, now: int): seq<AuditRow> {
    match call
    case Register(n) =>
      if !MayRegister(id, n) then [ForeignRegisterEvent(id.commonName, n, now)]
      else if n.nodeId in reg then []
      else [RegisterEvent(id.commonName, n, now)]
    case Beat(n) =>
      if n !in reg then []
      else if reg[n].commonName != id.commonName then [ForeignBeatEvent(id.commonName, n, now)]
      else if reg[n].onboarding then [StateChangeEvent(id.commonName, n, now)]
      else []
    case _ => []
  }

  function PolicyRegistry(reg: Registry, id: Identity, call: Call, now: int): Registry {
    match call
    case Register(n) =>
      if MayRegister(id, n) && n.nodeId !in reg
      then reg[n.nodeId := Entry(n.commonName, n.state == Onboarding, None)]
      else reg
    case Beat(n) =>
      if n in reg && reg[n].commonName == id.commonName then reg[n := Entry(id.commonName, false, Some(now))] else reg
    case _ => reg
  }

  /** The status a live identity gets: an unknown node is 404 before a foreign
      beat is 403, a foreign registration is 403 before a known id is 409. */
  function PolicyStatus(reg: Registry, id: Identity, call: Call): nat {
    match call
    case Register(n) => if !MayRegister(id, n) then 403 else if n.nodeId in reg then 409 else 201
    case Beat(n) => if n !in reg then 404 else if reg[n].commonName != id.commonName then 403 else 200
    case GetNode(n) => if n in reg then 200 else 404
    case ListRows => 200
  }

  datatype Policy = Policy(registry: Registry, revoked: set<nat>)

  /** A revoked certificate costs one AUTH_FAILURE and nothing else; a request
      without an identity costs nothing. */
  function EventRows(p: Policy, e: Event): seq<AuditRow> {
    if !e.Incoming? then []
    else match Authenticate(e.request.headers)
         case Refused(_) => []
         case Known(id) =>
           if IsRevoked(id, p.revoked) then [RevocationEvent(id.commonName, id.serial.value, e.now)]
           else PolicyRows(p.registry, id, e.request.call, e.now)
  }

  function EventPolicy(p: Policy, e: Event): Policy {
    match e
    case Restart => p.(revoked := {})
    case CrlInstalled(serials) => p.(revoked := serials)
    case Incoming(r, now) =>
      match Authenticate(r.headers)
      case Refused(_) => p
      case Known(id) =>
        if IsRevoked(id, p.revoked) then p else p.(registry := PolicyRegistry(p.registry, id, r.call, now))
  }

  function EventStatus(p: Policy, r: Request): nat {
    match Authenticate(r.headers)
    case Refused(why) => if why == MissingHeaders then 401 else if why == CnParseFailure then 400 else 403
    case Known(id) => if IsRevoked(id, p.revoked) then 403 else PolicyStatus(p.registry, id, r.call)
  }

  /** The log the policy prescribes for a run. */
  function PolicyLog(p: Policy, es: seq<Event>): seq<AuditRow>
    decreases |es|
  {
    if es == [] then [] else EventRows(p, es[0]) + PolicyLog(EventPolicy(p, es[0]), es[1..])
  }

  function PolicyAfter(p: Policy, es: seq<Event>): Policy
    decreases |es|
  {
    if es == [] then p else PolicyAfter(EventPolicy(p, es[0]), es[1..])
  }

  function PolicyStatuses(p: Policy, es: seq<Event>): seq<nat>
    decreases |es|
  {
    if es == [] then []
    else
      (if es[0].Incoming? then [EventStatus(p, es[0].request)] else [])
      + PolicyStatuses(EventPolicy(p, es[0]), es[1..])
  }

  /** The status of every request of a run. */
  function Statuses(s: Store, es: seq<Event>): seq<nat>
    decreases |es|
  {
    if es == [] then []
    else (if es[0].Incoming? then [Respond(s, es[0].request).Status()] else []) + Statuses(Step(s, es[0]), es[1..])
  }

  function EntryAt(nodes: seq<NodeRow>, id: string): Option<Entry> {
    match Find(nodes, id)
    case None => None
    case Some(i) => Some(Entry(nodes[i].base.commonName, nodes[i].base.state == Onboarding, nodes[i].lastHeartbeatAt))
  }

  function Lookup(reg: Registry, id: string): Option<Entry> {
    if id in reg then Some(reg[id]) else None
  }

  /** The registry and the table answer every lookup alike. */
  ghost predicate Describes(reg: Registry, nodes: seq<NodeRow>) {
    forall id :: EntryAt(nodes, id) == Lookup(reg, id)
  }

  lemma FindAfterAppend(nodes: seq<NodeRow>, row: NodeRow, id: string)
    ensures Find(nodes + [row], id) == if id == row.base.nodeId then Some(|nodes|) else Find(nodes, id)
  {
    assert (nodes + [row])[..|nodes|] == nodes;
  }

  lemma {:induction false} FindAfterTouch(nodes: seq<NodeRow>, i: nat, row: NodeRow, id: string)
    requires i < |nodes| && row.base.nodeId == nodes[i].base.nodeId
    ensures Find(nodes[i := row], id) == Find(nodes, id)
  {
    var m := |nodes| - 1;
    if i < m {
      assert nodes[i := row][..m] == nodes[..m][i := row];
      FindAfterTouch(nodes[..m], i, row, id);
    } else {
      assert nodes[i := row][..m] == nodes[..m];
    }
  }

  lemma PolicyStep(reg: Registry, nodes: seq<NodeRow>, id: Identity, call: Call, now: int)
    requires Describes(reg, nodes)
    ensures AsSeq(EventFor(id, call, Decide(nodes, id, call), now)) == PolicyRows(reg, id, call, now)
    ensures Describes(PolicyRegistry(reg, id, call, now), NodesAfter(nodes, call, Decide(nodes, id, call), now))
    ensures Decide(nodes, id, call).Status() == PolicyStatus(reg, id, call)
  {
    var after := NodesAfter(nodes, call, Decide(nodes, id, call), now);
    match call {
      case Register(n) =>
        assert EntryAt(nodes, n.nodeId) == Lookup(reg, n.nodeId);
        forall k ensures EntryAt(after, k) == Lookup(PolicyRegistry(reg, id, call, now), k) {
          assert EntryAt(nodes, k) == Lookup(reg, k);
          FindAfterAppend(nodes, NewRow(n, now), k);
        }
      case Beat(n) =>
        assert EntryAt(nodes, n) == Lookup(reg, n);
        if n in reg && reg[n].commonName == id.commonName {
          PolicyBeat(reg, nodes, n, now);
        }
      case GetNode(n) => assert EntryAt(nodes, n) == Lookup(reg, n);
      case ListRows =>
    }
  }

  lemma PolicyBeat(reg: Registry, nodes: seq<NodeRow>, n: string, now: int)
    requires Describes(reg, nodes) && Find(nodes, n).Some? && n in reg
    ensures var i := Find(nodes, n).value;
      Describes(reg[n := Entry(nodes[i].base.commonName, false, Some(now))],
                nodes[i := Touched(nodes[i], nodes[i].base.state == Onboarding, now)])
  {
    var i := Find(nodes, n).value;
    var after := nodes[i := Touched(nodes[i], nodes[i].base.state == Onboarding, now)];
    forall k ensures EntryAt(after, k) == Lookup(reg[n := Entry(nodes[i].base.commonName, false, Some(now))], k) {
      assert EntryAt(nodes, k) == Lookup(reg, k);
      FindAfterTouch(nodes, i, after[i], k);
    }
  }

  ghost predicate Follows(p: Policy, s: Store) {
    p.revoked == s.revoked && Describes(p.registry, s.nodes)
  }

  lemma LiveStep(p: Policy, s: Store, r: Request, now: int, id: Identity)
    requires Follows(p, s) && Authenticate(r.headers) == Known(id) && !IsRevoked(id, s.revoked)
    ensures Serve(s, r, now).audit == s.audit + PolicyRows(p.registry, id, r.call, now)
    ensures Follows(p.(registry := PolicyRegistry(p.registry, id, r.call, now)), Serve(s, r, now))
    ensures Respond(s, r).Status() == PolicyStatus(p.registry, id, r.call)
  {
    ServeLive(s, r, now, id);
    PolicyStep(p.registry, s.nodes, id, r.call, now);
    hide Serve, Respond, Authenticate, IsRevoked, Decide, NodesAfter, EventFor;
    hide PolicyRows, PolicyRegistry, PolicyStatus, Describes;
  }

  lemma EventStep(p: Policy, s: Store, e: Event)
    requires Follows(p, s)
    ensures Step(s, e).audit == s.audit + EventRows(p, e)
    ensures Follows(EventPolicy(p, e), Step(s, e))
    ensures e.Incoming? ==> Respond(s, e.request).Status() == EventStatus(p, e.request)
  {
    hide Serve, Respond, PolicyRows, PolicyRegistry, PolicyStatus, Authenticate, Describes;
    if e.Incoming? {
      var r := e.request;
      match Authenticate(r.headers) {
        case Refused(why) => ServeRefused(s, r, e.now, why);
        case Known(id) =>
          if IsRevoked(id, s.revoked) {
            ServeRevoked(s, r, e.now, id);
          } else {
            LiveStep(p, s, r, e.now, id);
          }
      }
    }
  }

  /** Any serial run against the keyed policy: the committed log is the policy
      folded over the events, the table ends as the policy's registry does, and
      every request gets the policy's status. */
  lemma {:induction false} RunFollowsPolicy(p: Policy, s: Store, es: seq<Event>)
    requires Follows(p, s)
    ensures Run(s, es).audit == s.audit + PolicyLog(p, es)
    ensures Follows(PolicyAfter(p, es), Run(s, es))
    ensures Statuses(s, es) == PolicyStatuses(p, es)
    decreases |es|
  {
    hide Step, EventRows, EventPolicy, EventStatus, Follows, Respond;
    if es != [] {
      EventStep(p, s, es[0]);
      RunFollowsPolicy(EventPolicy(p, es[0]), Step(s, es[0]), es[1..]);
    }
  }

  // ---------- conservation of authentication outcomes ----------

  function Arrivals(es: seq<Event>): nat
    decreases |es|
  {
    if es == [] then 0 else (if es[0].Incoming? then 1 else 0) + Arrivals(es[1..])
  }

  /** The requests that leave the dependency chain with a live identity. */
  function Passed(revoked: set<nat>, es: seq<Event>): nat
    decreases |es|
  {
    if es == [] then 0
    else match es[0]
         case Restart => Passed({}, es[1..])
         case CrlInstalled(serials) => Passed(serials, es[1..])
         case Incoming(r, _) =>
           var auth := Authenticate(r.headers);
           (if auth.Known? && !IsRevoked(auth.id, revoked) then 1 else 0) + Passed(revoked, es[1..])
  }

  function Seen(auth: multiset<AuthOutcome>): nat {
    auth[Accepted] + auth[MissingHeaders] + auth[VerifyFailure] + auth[CnParseFailure]
  }

  lemma RefusalLabels(h: Headers)
    requires Authenticate(h).Refused?
    ensures Authenticate(h).why in {MissingHeaders, VerifyFailure, CnParseFailure}
  {
  }

  lemma AuthStep(s: Store, e: Event)
    requires !e.Restart?
    ensures Seen(Step(s, e).auth) == Seen(s.auth) + Arrivals([e])
    ensures Step(s, e).auth[Accepted] + s.auth[RevokedSerial]
         == s.auth[Accepted] + Step(s, e).auth[RevokedSerial] + Passed(s.revoked, [e])
    ensures Step(s, e).revoked == if e.CrlInstalled? then e.serials else s.revoked
  {
    hide Serve, Respond, Authenticate, EventFor, NodesAfter;
    if e.Incoming? {
      var r := e.request;
      match Authenticate(r.headers) {
        case Refused(why) =>
          RefusalLabels(r.headers);
          ServeRefused(s, r, e.now, why);
        case Known(id) =>
          if IsRevoked(id, s.revoked) {
            ServeRevoked(s, r, e.now, id);
          } else {
            ServeLive(s, r, e.now, id);
          }
      }
    }
  }

  /** Every request is counted under exactly one of four labels, and accepted
      less revoked is the number of requests that reached a handler. */
  lemma {:induction false} AuthOutcomesAreConserved(s: Store, es: seq<Event>)
    requires forall i :: 0 <= i < |es| ==> !es[i].Restart?
    ensures Seen(Run(s, es).auth) == Seen(s.auth) + Arrivals(es)
    ensures Run(s, es).auth[Accepted] + s.auth[RevokedSerial]
         == s.auth[Accepted] + Run(s, es).auth[RevokedSerial] + Passed(s.revoked, es)
    decreases |es|
  {
    hide Step, Seen;
    if es != [] {
      AuthStep(s, es[0]);
      AuthOutcomesAreConserved(Step(s, es[0]), es[1..]);
    }
  }
}
