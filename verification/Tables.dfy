/** The controller's two tables, their rows, and lookup by `node_id`. */
module Tables {
  import opened Wrappers

  datatype NodeState = Onboarding | Active | Stale | Revoked | Decommissioned

  /** The fields shared by the registration payload and the stored row. The
      payload carries `state` too, so a row may be stored in any state. */
  datatype NodeBase = NodeBase(
    nodeId: string,
    commonName: string,
    role: string,
    state: NodeState,
    ipAddress: Option<string>,
    notes: Option<string>)

  datatype NodeRow = NodeRow(
    base: NodeBase,
    createdAt: int,
    updatedAt: int,
    lastHeartbeatAt: Option<int>)

  datatype AuditAction =
    | NodeRegister | NodeHeartbeat | NodeStateChange | NodeUpdate
    | NodeDelete | AuthFailure | AuthSuccess | AdminAction

  datatype AuditResult = Success | Rejected | Error

  /** `node:<id>` or `cert:<hex>`. */
  datatype Target = NodeTarget(nodeId: string) | CertTarget(hex: string)

  datatype Details =
    | RegisteredAs(role: string, ipAddress: Option<string>)
    | Moved(source: NodeState, target: NodeState)
    | MayNotRegister
    | MayNotBeatFor(claimed: string)
    | CertificateRevoked(hex: string)

  datatype AuditRow = AuditRow(
    actorCn: string,
    action: AuditAction,
    target: Target,
    result: AuditResult,
    details: Details,
    timestamp: int)

  /** The label pair under which `audit_events_total` counts a row. A labelled
      counter is a multiset of label pairs; one increment adds one element. */
  datatype Kind = Kind(action: AuditAction, result: AuditResult)

  function KindOf(row: AuditRow): Kind {
    Kind(row.action, row.result)
  }

  function Kinds(rows: seq<AuditRow>): multiset<Kind> {
    if rows == [] then multiset{}
    else Kinds(rows[..|rows| - 1]) + multiset{KindOf(rows[|rows| - 1])}
  }

  /** `SELECT ... WHERE node_id = id`. */
  function Find(nodes: seq<NodeRow>, id: string): (r: Option<nat>)
    ensures r.Some? ==> r.value < |nodes| && nodes[r.value].base.nodeId == id
    ensures r.None? ==> forall i :: 0 <= i < |nodes| ==> nodes[i].base.nodeId != id
  {
    if nodes == [] then None
    else if nodes[|nodes| - 1].base.nodeId == id then Some(|nodes| - 1)
    else Find(nodes[..|nodes| - 1], id)
  }

  ghost predicate Distinct(nodes: seq<NodeRow>) {
    forall i, j :: 0 <= i < j < |nodes| ==> nodes[i].base.nodeId != nodes[j].base.nodeId
  }

  lemma FindTheRow(nodes: seq<NodeRow>, i: nat)
    requires Distinct(nodes) && i < |nodes|
    ensures Find(nodes, nodes[i].base.nodeId) == Some(i)
  {
    var r := Find(nodes, nodes[i].base.nodeId);
    assert r.Some?;
  }

  function Ids(nodes: seq<NodeRow>): (ids: seq<string>)
    ensures |ids| == |nodes|
    ensures forall i :: 0 <= i < |nodes| ==> ids[i] == nodes[i].base.nodeId
  {
    seq(|nodes|, i requires 0 <= i < |nodes| => nodes[i].base.nodeId)
  }

  predicate IsRegistration(row: AuditRow) {
    row.action == NodeRegister && row.result == Success && row.target.NodeTarget?
  }

  /** The node ids named by the NODE_REGISTER/SUCCESS rows, oldest first. */
  function RegisteredIds(rows: seq<AuditRow>): seq<string> {
    if rows == [] then []
    else
      var last := rows[|rows| - 1];
      RegisteredIds(rows[..|rows| - 1]) + if IsRegistration(last) then [last.target.nodeId] else []
  }

  lemma KindsOfAppend(rows: seq<AuditRow>, row: AuditRow)
    ensures Kinds(rows + [row]) == Kinds(rows) + multiset{KindOf(row)}
  {
    assert (rows + [row])[..|rows|] == rows;
  }

  lemma RegisteredIdsOfAppend(rows: seq<AuditRow>, row: AuditRow)
    ensures RegisteredIds(rows + [row]) == RegisteredIds(rows) + if IsRegistration(row) then [row.target.nodeId] else []
  {
    assert (rows + [row])[..|rows|] == rows;
  }
}
