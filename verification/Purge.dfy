/** Which requests of a run can matter to whom. */
module Purge {
  import opened Wrappers
  import opened Tables
  import opened Security
  import opened Requests
  import opened Controller
  import opened Traces

  // ---------- a cached revocation silences a certificate ----------

  predicate Bears(e: Event, serial: nat) {
    e.Incoming? && Authenticate(e.request.headers).Known? && Authenticate(e.request.headers).id.serial == Some(serial)
  }

  function Without(es: seq<Event>, serial: nat): seq<Event>
    decreases |es|
  {
    if es == [] then []
    else if Bears(es[0], serial) then Without(es[1..], serial)
    else [es[0]] + Without(es[1..], serial)
  }

  lemma RevokedStepWritesNothing(s: Store, e: Event, serial: nat)
    requires Bears(e, serial) && serial in s.revoked
    ensures Respond(s, e.request) == RevokedCert
    ensures Step(s, e).nodes == s.nodes && Step(s, e).revoked == s.revoked
  {
    ServeRevoked(s, e.request, e.now, Authenticate(e.request.headers).id);
  }

  lemma StepsAlike(s: Store, t: Store, e: Event)
    requires s.nodes == t.nodes && s.revoked == t.revoked
    ensures Step(s, e).nodes == Step(t, e).nodes && Step(s, e).revoked == Step(t, e).revoked
  {
  }

  /** While a serial stays cached, deleting every request that carries it leaves
      the node table of the whole run as it was. */
  lemma {:induction false} RevokedSerialNeverTouchesNodes(s: Store, t: Store, es: seq<Event>, serial: nat)
    requires serial in s.revoked && s.nodes == t.nodes && s.revoked == t.revoked
    requires forall i :: 0 <= i < |es| ==> !es[i].Restart? && (es[i].CrlInstalled? ==> serial in es[i].serials)
    ensures Run(s, es).nodes == Run(t, Without(es, serial)).nodes
    decreases |es|
  {
    hide Step, Bears;
    if es != [] {
      var e, rest := es[0], es[1..];
      if Bears(e, serial) {
        RevokedStepWritesNothing(s, e, serial);
        RevokedSerialNeverTouchesNodes(Step(s, e), t, rest, serial);
      } else {
        StepsAlike(s, t, e);
        AuthRevoked(s, e);
        RevokedSerialNeverTouchesNodes(Step(s, e), Step(t, e), rest, serial);
        assert ([e] + Without(rest, serial))[1..] == Without(rest, serial);
      }
    }
  }

  lemma AuthRevoked(s: Store, e: Event)
    requires !e.Restart?
    ensures Step(s, e).revoked == if e.CrlInstalled? then e.serials else s.revoked
  {
  }

  // ---------- noninterference between nodes ----------

  /** A request by an identity that is neither `c` nor a controller. */
  predicate IsForeign(e: Event, c: string) {
    && e.Incoming?
    && Authenticate(e.request.headers).Known?
    && var id := Authenticate(e.request.headers).id;
       id.commonName != c && !id.IsController()
  }

  function Purged(es: seq<Event>, c: string): seq<Event>
    decreases |es|
  {
    if es == [] then []
    else if IsForeign(es[0], c) then Purged(es[1..], c)
    else [es[0]] + Purged(es[1..], c)
  }

  predicate IsOwn(e: Event, c: string) {
    e.Incoming? && IsBy(e.request, c)
  }

  /** A registration or a heartbeat by `c`. */
  predicate Asks(e: Event, c: string) {
    IsOwn(e, c) && (e.request.call.Register? || e.request.call.Beat?)
  }

  /** What `c` is told on its registrations and heartbeats. */
  function Answers(s: Store, es: seq<Event>, c: string): seq<Response>
    decreases |es|
  {
    if es == [] then []
    else if Asks(es[0], c)
    then [Respond(s, es[0].request)] + Answers(Step(s, es[0]), es[1..], c)
    else Answers(Step(s, es[0]), es[1..], c)
  }

  function NodesOf(nodes: seq<NodeRow>, c: string): seq<NodeRow> {
    if nodes == [] then []
    else NodesOf(nodes[..|nodes| - 1], c) + if nodes[|nodes| - 1].base.commonName == c then [nodes[|nodes| - 1]] else []
  }

  function ActsOf(rows: seq<AuditRow>, c: string): seq<AuditRow> {
    if rows == [] then []
    else ActsOf(rows[..|rows| - 1], c) + if rows[|rows| - 1].actorCn == c then [rows[|rows| - 1]] else []
  }

  // ---------- the ids a foreign registration takes ----------

  function RowAt(nodes: seq<NodeRow>, id: string): Option<NodeRow> {
    match Find(nodes, id)
    case None => None
    case Some(i) => Some(nodes[i])
  }

  /** Ids that a foreign registration of the run created. Without the foreign
      requests a `taken` id would be free, and a `stolen` one would belong to `c`,
      because a controller has tried to register it for `c` since. */
  datatype Claims = Claims(taken: set<string>, stolen: set<string>)

  const NONE: Claims := Claims({}, {})

  /** The request has an identity that is not known to be revoked. */
  predicate IsLive(s: Store, r: Request) {
    Authenticate(r.headers).Known? && !IsRevoked(Authenticate(r.headers).id, s.revoked)
  }

  /** The id a request names. */
  function Named(call: Call): string {
    match call
    case Register(p) => p.nodeId
    case Beat(n) => n
    case GetNode(n) => n
    case ListRows => ""
  }

  /** The claims after a live request; `free` says whether the full table has no
      row under the id it names. */
  function LiveClaims(k: Claims, who: Identity, call: Call, foreign: bool, free: bool, c: string): Claims {
    if !call.Register? || !MayRegister(who, call.payload) then k
    else
      var p := call.payload;
      if foreign then if free then k.(taken := k.taken + {p.nodeId}) else k
      else if p.nodeId in k.taken then
        Claims(k.taken - {p.nodeId}, if p.commonName == c then k.stolen + {p.nodeId} else k.stolen)
      else k
  }

  /** Registers an id that is taken, or beats for one that is taken or stolen. */
  predicate LiveNamesClaimed(k: Claims, who: Identity, call: Call) {
    match call
    case Register(p) => MayRegister(who, p) && p.nodeId in k.taken
    case Beat(n) => n in k.taken || n in k.stolen
    case _ => false
  }

  function ClaimsAfter(s: Store, k: Claims, e: Event, c: string): Claims {
    if e.Incoming? && IsLive(s, e.request) then
      var call := e.request.call;
      LiveClaims(k, Authenticate(e.request.headers).id, call, IsForeign(e, c), Find(s.nodes, Named(call)).None?, c)
    else k
  }

  function ClaimsAfterAll(s: Store, k: Claims, es: seq<Event>, c: string): Claims
    decreases |es|
  {
    if es == [] then k else ClaimsAfterAll(Step(s, es[0]), ClaimsAfter(s, k, es[0], c), es[1..], c)
  }

  /** `c`, with a certificate that is not known to be revoked, names a claimed id. */
  predicate NamesClaimed(s: Store, k: Claims, e: Event, c: string) {
    IsOwn(e, c) && IsLive(s, e.request) && LiveNamesClaimed(k, Authenticate(e.request.headers).id, e.request.call)
  }

  predicate NeverNamesClaimed(s: Store, k: Claims, es: seq<Event>, c: string)
    decreases |es|
  {
    es != [] ==>
      && !NamesClaimed(s, k, es[0], c)
      && NeverNamesClaimed(Step(s, es[0]), ClaimsAfter(s, k, es[0], c), es[1..], c)
  }

  // ---------- the store with and without the foreign requests ----------

  /** What `c` can tell about the row under one id: whether there is one, whether
      it is its own, and everything about it if it is. */
  predicate Similar(a: Option<NodeRow>, b: Option<NodeRow>, c: string) {
    && a.Some? == b.Some?
    && (a.Some? && (a.value.base.commonName == c || b.value.base.commonName == c) ==> a == b)
  }

  predicate IsOthers(row: Option<NodeRow>, c: string) {
    row.Some? && row.value.base.commonName != c
  }

  predicate AlikeAt(row: Option<NodeRow>, purged: Option<NodeRow>, k: Claims, id: string, c: string) {
    if id in k.taken then IsOthers(row, c) && purged.None?
    else if id in k.stolen then IsOthers(row, c) && purged.Some? && purged.value.base.commonName == c
    else Similar(row, purged, c)
  }

  ghost predicate AlikeRows(nodes: seq<NodeRow>, purged: seq<NodeRow>, k: Claims, c: string) {
    forall id :: AlikeAt(RowAt(nodes, id), RowAt(purged, id), k, id, c)
  }

  /** The two tables hold the same rows of `c`, in the same order, but for the
      stolen ones. */
  ghost predicate AlikeNodesOf(nodes: seq<NodeRow>, purged: seq<NodeRow>, k: Claims, c: string) {
    && |NodesOf(purged, c)| == |NodesOf(nodes, c)| + |k.stolen|
    && (k.stolen == {} ==> NodesOf(nodes, c) == NodesOf(purged, c))
  }

  ghost predicate Alike(s: Store, t: Store, k: Claims, c: string) {
    && s.revoked == t.revoked && k.taken !! k.stolen
    && AlikeRows(s.nodes, t.nodes, k, c) && AlikeNodesOf(s.nodes, t.nodes, k, c)
    && ActsOf(s.audit, c) == ActsOf(t.audit, c)
  }

  // ---------- one table operation ----------

  lemma RowAtAfterAppend(nodes: seq<NodeRow>, row: NodeRow, id: string)
    ensures RowAt(nodes + [row], id) == if id == row.base.nodeId then Some(row) else RowAt(nodes, id)
  {
    FindAfterAppend(nodes, row, id);
  }

  lemma RowAtAfterTouch(nodes: seq<NodeRow>, n: string, activate: bool, now: int, id: string)
    requires Find(nodes, n).Some?
    ensures var i := Find(nodes, n).value;
      RowAt(nodes[i := Touched(nodes[i], activate, now)], id)
      == if id == n then Some(Touched(nodes[i], activate, now)) else RowAt(nodes, id)
  {
    var i := Find(nodes, n).value;
    FindAfterTouch(nodes, i, Touched(nodes[i], activate, now), id);
  }

  lemma NodesOfAppend(nodes: seq<NodeRow>, row: NodeRow, c: string)
    ensures NodesOf(nodes + [row], c) == NodesOf(nodes, c) + if row.base.commonName == c then [row] else []
  {
    assert (nodes + [row])[..|nodes|] == nodes;
  }

  lemma {:induction false} NodesOfOthersTouch(nodes: seq<NodeRow>, i: nat, row: NodeRow, c: string)
    requires i < |nodes| && nodes[i].base.commonName == row.base.commonName != c
    ensures NodesOf(nodes[i := row], c) == NodesOf(nodes, c)
  {
    var m := |nodes| - 1;
    if i < m {
      assert nodes[i := row][..m] == nodes[..m][i := row];
      NodesOfOthersTouch(nodes[..m], i, row, c);
    } else {
      assert nodes[i := row][..m] == nodes[..m];
    }
  }

  /** Touching the row under one of `c`'s ids touches the last row with that id
      among `c`'s rows. */
  lemma {:induction false} NodesOfOwnTouch(nodes: seq<NodeRow>, n: string, row: NodeRow, c: string)
    requires Find(nodes, n).Some?
    requires nodes[Find(nodes, n).value].base.commonName == row.base.commonName == c && row.base.nodeId == n
    ensures var i, k := Find(nodes, n).value, Find(NodesOf(nodes, c), n);
      k.Some? && NodesOf(nodes[i := row], c) == NodesOf(nodes, c)[k.value := row]
  {
    var m, i := |nodes| - 1, Find(nodes, n).value;
    var front := NodesOf(nodes[..m], c);
    FindAfterAppend(front, nodes[m], n);
    if i < m {
      assert nodes[i := row][..m] == nodes[..m][i := row];
      NodesOfOwnTouch(nodes[..m], n, row, c);
      var k, last := Find(front, n).value, if nodes[m].base.commonName == c then [nodes[m]] else [];
      assert NodesOf(nodes, c) == front + last;
      assert NodesOf(nodes[i := row], c) == front[k := row] + last == (front + last)[k := row];
      assert last == [] ==> front + last == front;
    } else {
      assert nodes[i := row][..m] == nodes[..m];
      assert NodesOf(nodes, c) == front + [nodes[m]];
      assert NodesOf(nodes[i := row], c) == front + [row];
    }
  }

  // ---------- one live request ----------

  /** The row under `id` after a live request by `who`. */
  function RowAfter(row: Option<NodeRow>, id: string, who: Identity, call: Call, now: int): Option<NodeRow> {
    match call
    case Register(p) => if p.nodeId == id && row.None? && MayRegister(who, p) then Some(NewRow(p, now)) else row
    case Beat(n) =>
      if n == id && row.Some? && row.value.base.commonName == who.commonName
      then Some(Touched(row.value, row.value.base.state == Onboarding, now))
      else row
    case _ => row
  }

  /** The table's rows of `c` after a live request by `who`. */
  function OwnRowsAfter(
      own: seq<NodeRow>, row: Option<NodeRow>, who: Identity, call: Call, now: int, c: string): seq<NodeRow>
  {
    match call
    case Register(p) => if row.None? && MayRegister(who, p) && p.commonName == c then own + [NewRow(p, now)] else own
    case Beat(n) =>
      var k := Find(own, n);
      if row.Some? && row.value.base.commonName == who.commonName == c && k.Some?
      then own[k.value := Touched(row.value, row.value.base.state == Onboarding, now)]
      else own
    case _ => own
  }

  lemma LiveMovesRow(nodes: seq<NodeRow>, who: Identity, call: Call, now: int, id: string)
    ensures RowAt(NodesAfter(nodes, call, Decide(nodes, who, call), now), id)
         == RowAfter(RowAt(nodes, id), id, who, call, now)
  {
    match call
    case Register(p) => RowAtAfterAppend(nodes, NewRow(p, now), id);
    case Beat(n) =>
      if Find(nodes, n).Some? {
        RowAtAfterTouch(nodes, n, Decide(nodes, who, call).Activated?, now, id);
      }
    case _ =>
  }

  lemma LiveMovesOwnRows(nodes: seq<NodeRow>, who: Identity, call: Call, now: int, c: string)
    ensures NodesOf(NodesAfter(nodes, call, Decide(nodes, who, call), now), c)
         == OwnRowsAfter(NodesOf(nodes, c), RowAt(nodes, Named(call)), who, call, now, c)
  {
    match call
    case Register(p) => NodesOfAppend(nodes, NewRow(p, now), c);
    case Beat(n) =>
      if Find(nodes, n).Some? && nodes[Find(nodes, n).value].base.commonName == who.commonName {
        var i := Find(nodes, n).value;
        var row := Touched(nodes[i], nodes[i].base.state == Onboarding, now);
        if who.commonName == c {
          NodesOfOwnTouch(nodes, n, row, c);
        } else {
          NodesOfOthersTouch(nodes, i, row, c);
        }
      }
    case _ =>
  }

  /** A foreign request happens in the full run only. */
  lemma ForeignKeepsAlikeAt(
      row: Option<NodeRow>, purged: Option<NodeRow>, k: Claims, id: string, who: Identity, call: Call, free: bool,
      now: int, c: string)
    requires AlikeAt(row, purged, k, id, c) && who.commonName != c && !who.IsController()
    requires id == Named(call) ==> free == row.None?
    ensures AlikeAt(RowAfter(row, id, who, call, now), purged, LiveClaims(k, who, call, true, free, c), id, c)
  {
  }

  /** Any other request happens in both runs. */
  lemma OthersKeepAlikeAt(
      row: Option<NodeRow>, purged: Option<NodeRow>, k: Claims, id: string, who: Identity, call: Call, free: bool,
      now: int, c: string)
    requires AlikeAt(row, purged, k, id, c) && k.taken !! k.stolen && !("controller." <= c)
    requires who.commonName != c ==> who.IsController()
    requires who.commonName == c ==> !LiveNamesClaimed(k, who, call)
    ensures AlikeAt(RowAfter(row, id, who, call, now), RowAfter(purged, id, who, call, now),
                    LiveClaims(k, who, call, false, free, c), id, c)
  {
  }

  lemma ForeignKeepsOwnRows(own: seq<NodeRow>, row: Option<NodeRow>, who: Identity, call: Call, now: int, c: string)
    requires who.commonName != c && !who.IsController()
    ensures OwnRowsAfter(own, row, who, call, now, c) == own
  {
  }

  lemma OthersKeepOwnRowsAlike(
      own: seq<NodeRow>, purgedOwn: seq<NodeRow>, row: Option<NodeRow>, purged: Option<NodeRow>, k: Claims,
      who: Identity, call: Call, free: bool, now: int, c: string)
    requires AlikeAt(row, purged, k, Named(call), c) && k.taken !! k.stolen && !("controller." <= c)
    requires who.commonName != c ==> who.IsController()
    requires who.commonName == c ==> !LiveNamesClaimed(k, who, call)
    requires |purgedOwn| == |own| + |k.stolen| && (k.stolen == {} ==> own == purgedOwn)
    ensures var after := OwnRowsAfter(own, row, who, call, now, c);
      var purgedAfter := OwnRowsAfter(purgedOwn, purged, who, call, now, c);
      var claimed := LiveClaims(k, who, call, false, free, c);
      |purgedAfter| == |after| + |claimed.stolen| && (claimed.stolen == {} ==> after == purgedAfter)
  {
  }

  /** The two runs answer a live request by `c` differently exactly when it names
      a claimed id. */
  lemma OwnDecideAlike(nodes: seq<NodeRow>, purged: seq<NodeRow>, k: Claims, who: Identity, call: Call, c: string)
    requires AlikeAt(RowAt(nodes, Named(call)), RowAt(purged, Named(call)), k, Named(call), c) && k.taken !! k.stolen
    requires who.commonName == c && !who.IsController() && (call.Register? || call.Beat?)
    ensures Decide(nodes, who, call) == Decide(purged, who, call) <==> !LiveNamesClaimed(k, who, call)
  {
  }

  // ---------- one event ----------

  lemma ActsOfAppend(rows: seq<AuditRow>, more: seq<AuditRow>, c: string)
    requires |more| <= 1
    ensures ActsOf(rows + more, c) == ActsOf(rows, c) + ActsOf(more, c)
  {
    if more == [] {
      assert rows + more == rows;
    } else {
      assert (rows + more)[..|rows|] == rows;
      assert more[..0] == [];
    }
  }

  lemma ActsOfOthers(rows: seq<AuditRow>, id: Identity, call: Call, response: Response, now: int, c: string)
    requires id.commonName != c
    ensures ActsOf(rows + AsSeq(EventFor(id, call, response, now)), c) == ActsOf(rows, c)
  {
    var more := AsSeq(EventFor(id, call, response, now));
    ActsOfAppend(rows, more, c);
    assert more != [] ==> more[..0] == [];
  }

  lemma OwnActs(s: Store, t: Store, id: Identity, call: Call, a: Response, b: Response, now: int, c: string)
    requires ActsOf(s.audit, c) == ActsOf(t.audit, c)
    requires id.commonName == c ==> EventFor(id, call, a, now) == EventFor(id, call, b, now)
    ensures ActsOf(s.audit + AsSeq(EventFor(id, call, a, now)), c)
         == ActsOf(t.audit + AsSeq(EventFor(id, call, b, now)), c)
  {
    if id.commonName == c {
      hide EventFor, ActsOf;
      ActsOfAppend(s.audit, AsSeq(EventFor(id, call, a, now)), c);
      ActsOfAppend(t.audit, AsSeq(EventFor(id, call, b, now)), c);
    } else {
      ActsOfOthers(s.audit, id, call, a, now, c);
      ActsOfOthers(t.audit, id, call, b, now, c);
    }
  }

  /** A read leaves no event, whatever it is answered. */
  lemma ReadsLeaveNoEvent(id: Identity, call: Call, nodes: seq<NodeRow>, now: int)
    requires call.GetNode? || call.ListRows?
    ensures EventFor(id, call, Decide(nodes, id, call), now) == None
  {
  }

  lemma ForeignKeepsTablesAlike(
      nodes: seq<NodeRow>, purged: seq<NodeRow>, k: Claims, who: Identity, call: Call, now: int, c: string)
    requires AlikeRows(nodes, purged, k, c) && AlikeNodesOf(nodes, purged, k, c)
    requires who.commonName != c && !who.IsController()
    ensures var after := NodesAfter(nodes, call, Decide(nodes, who, call), now);
      var claimed := LiveClaims(k, who, call, true, Find(nodes, Named(call)).None?, c);
      AlikeRows(after, purged, claimed, c) && AlikeNodesOf(after, purged, claimed, c)
  {
    var after := NodesAfter(nodes, call, Decide(nodes, who, call), now);
    var free := Find(nodes, Named(call)).None?;
    hide NodesAfter, Decide, AlikeAt, RowAfter, OwnRowsAfter, NodesOf;
    forall id ensures AlikeAt(RowAt(after, id), RowAt(purged, id), LiveClaims(k, who, call, true, free, c), id, c) {
      LiveMovesRow(nodes, who, call, now, id);
      ForeignKeepsAlikeAt(RowAt(nodes, id), RowAt(purged, id), k, id, who, call, free, now, c);
    }
    LiveMovesOwnRows(nodes, who, call, now, c);
    ForeignKeepsOwnRows(NodesOf(nodes, c), RowAt(nodes, Named(call)), who, call, now, c);
  }

  lemma OthersKeepTablesAlike(
      nodes: seq<NodeRow>, purged: seq<NodeRow>, k: Claims, who: Identity, call: Call, now: int, c: string)
    requires AlikeRows(nodes, purged, k, c) && AlikeNodesOf(nodes, purged, k, c)
    requires k.taken !! k.stolen && !("controller." <= c)
    requires who.commonName != c ==> who.IsController()
    requires who.commonName == c ==> !LiveNamesClaimed(k, who, call)
    ensures var after := NodesAfter(nodes, call, Decide(nodes, who, call), now);
      var purgedAfter := NodesAfter(purged, call, Decide(purged, who, call), now);
      var claimed := LiveClaims(k, who, call, false, Find(nodes, Named(call)).None?, c);
      AlikeRows(after, purgedAfter, claimed, c) && AlikeNodesOf(after, purgedAfter, claimed, c)
  {
    var after := NodesAfter(nodes, call, Decide(nodes, who, call), now);
    var purgedAfter := NodesAfter(purged, call, Decide(purged, who, call), now);
    var free := Find(nodes, Named(call)).None?;
    hide NodesAfter, Decide, AlikeAt, RowAfter, OwnRowsAfter, NodesOf, LiveNamesClaimed, LiveClaims;
    forall id
      ensures AlikeAt(RowAt(after, id), RowAt(purgedAfter, id), LiveClaims(k, who, call, false, free, c), id, c)
    {
      LiveMovesRow(nodes, who, call, now, id);
      LiveMovesRow(purged, who, call, now, id);
      OthersKeepAlikeAt(RowAt(nodes, id), RowAt(purged, id), k, id, who, call, free, now, c);
    }
    LiveMovesOwnRows(nodes, who, call, now, c);
    LiveMovesOwnRows(purged, who, call, now, c);
    var row, purgedRow := RowAt(nodes, Named(call)), RowAt(purged, Named(call));
    OthersKeepOwnRowsAlike(NodesOf(nodes, c), NodesOf(purged, c), row, purgedRow, k, who, call, free, now, c);
  }

  lemma ClaimsStayDisjoint(k: Claims, who: Identity, call: Call, foreign: bool, free: bool, c: string)
    requires k.taken !! k.stolen
    requires foreign && free ==> Named(call) !in k.stolen
    ensures var claimed := LiveClaims(k, who, call, foreign, free, c); claimed.taken !! claimed.stolen
  {
  }

  lemma StolenIsNotFree(s: Store, t: Store, k: Claims, id: string, c: string)
    requires AlikeRows(s.nodes, t.nodes, k, c) && Find(s.nodes, id).None?
    ensures id !in k.stolen
  {
    assert AlikeAt(RowAt(s.nodes, id), RowAt(t.nodes, id), k, id, c);
  }

  lemma ForeignStep(s: Store, t: Store, k: Claims, e: Event, c: string)
    requires Alike(s, t, k, c) && IsForeign(e, c)
    ensures Alike(Step(s, e), t, ClaimsAfter(s, k, e, c), c)
  {
    var r, who := e.request, Authenticate(e.request.headers).id;
    hide AlikeRows, AlikeNodesOf, LiveClaims, Serve, Respond, Decide, NodesAfter, EventFor, Authenticate, Find;
    if IsRevoked(who, s.revoked) {
      ServeRevoked(s, r, e.now, who);
      ActsOfAppend(s.audit, [RevocationEvent(who.commonName, who.serial.value, e.now)], c);
      assert [RevocationEvent(who.commonName, who.serial.value, e.now)][..0] == [];
    } else {
      ServeLive(s, r, e.now, who);
      ForeignKeepsTablesAlike(s.nodes, t.nodes, k, who, r.call, e.now, c);
      if Find(s.nodes, Named(r.call)).None? { StolenIsNotFree(s, t, k, Named(r.call), c); }
      ClaimsStayDisjoint(k, who, r.call, true, Find(s.nodes, Named(r.call)).None?, c);
      ActsOfOthers(s.audit, who, r.call, Respond(s, r), e.now, c);
    }
  }

  lemma SharedLiveStep(s: Store, t: Store, k: Claims, e: Event, c: string)
    requires Alike(s, t, k, c) && !("controller." <= c) && e.Incoming? && !IsForeign(e, c)
    requires IsLive(s, e.request) && !NamesClaimed(s, k, e, c)
    ensures Alike(Step(s, e), Step(t, e), ClaimsAfter(s, k, e, c), c)
  {
    var r, who := e.request, Authenticate(e.request.headers).id;
    var free := Find(s.nodes, Named(r.call)).None?;
    hide AlikeRows, AlikeNodesOf, LiveClaims, Serve, Respond, Decide, NodesAfter, EventFor, Authenticate, Find, ActsOf;
    ServeLive(s, r, e.now, who);
    ServeLive(t, r, e.now, who);
    OthersKeepTablesAlike(s.nodes, t.nodes, k, who, r.call, e.now, c);
    ClaimsStayDisjoint(k, who, r.call, false, free, c);
    if who.commonName == c {
      if r.call.Register? || r.call.Beat? {
        AlikeNamed(s, t, k, Named(r.call), c);
        OwnDecideAlike(s.nodes, t.nodes, k, who, r.call, c);
      } else {
        ReadsLeaveNoEvent(who, r.call, s.nodes, e.now);
        ReadsLeaveNoEvent(who, r.call, t.nodes, e.now);
      }
    }
    OwnActs(s, t, who, r.call, Respond(s, r), Respond(t, r), e.now, c);
  }

  lemma AlikeNamed(s: Store, t: Store, k: Claims, id: string, c: string)
    requires AlikeRows(s.nodes, t.nodes, k, c)
    ensures AlikeAt(RowAt(s.nodes, id), RowAt(t.nodes, id), k, id, c)
  {
  }

  /** Any event but a foreign request happens in both runs. */
  lemma SharedStep(s: Store, t: Store, k: Claims, e: Event, c: string)
    requires Alike(s, t, k, c) && !("controller." <= c) && !IsForeign(e, c) && !NamesClaimed(s, k, e, c)
    ensures Alike(Step(s, e), Step(t, e), ClaimsAfter(s, k, e, c), c)
  {
    if e.Incoming? && IsLive(s, e.request) {
      SharedLiveStep(s, t, k, e, c);
    } else if e.Incoming? {
      hide AlikeRows, AlikeNodesOf, Serve, Respond, Authenticate, ActsOf;
      match Authenticate(e.request.headers) {
        case Refused(why) =>
          ServeRefused(s, e.request, e.now, why);
          ServeRefused(t, e.request, e.now, why);
        case Known(id) =>
          var event := [RevocationEvent(id.commonName, id.serial.value, e.now)];
          ServeRevoked(s, e.request, e.now, id);
          ServeRevoked(t, e.request, e.now, id);
          ActsOfAppend(s.audit, event, c);
          ActsOfAppend(t.audit, event, c);
      }
    }
  }

  /** The two runs answer `c` differently exactly when it names a claimed id. */
  lemma OwnRespondAlike(s: Store, t: Store, k: Claims, e: Event, c: string)
    requires Alike(s, t, k, c) && !("controller." <= c) && Asks(e, c)
    ensures e.Incoming? && (Respond(s, e.request) == Respond(t, e.request) <==> !NamesClaimed(s, k, e, c))
  {
    var who := Authenticate(e.request.headers).id;
    hide Decide, Authenticate, LiveNamesClaimed;
    if IsLive(s, e.request) {
      AlikeNamed(s, t, k, Named(e.request.call), c);
      OwnDecideAlike(s.nodes, t.nodes, k, who, e.request.call, c);
    }
  }

  // ---------- whole runs ----------

  lemma ClaimIsOwnCall(s: Store, k: Claims, e: Event, c: string)
    requires NamesClaimed(s, k, e, c)
    ensures Asks(e, c)
  {
  }

  lemma ForeignDoesNotAsk(e: Event, c: string)
    requires IsForeign(e, c)
    ensures !Asks(e, c)
  {
  }

  lemma SameHead(a: Response, x: seq<Response>, y: seq<Response>)
    ensures [a] + x == [a] + y <==> x == y
  {
    assert ([a] + x)[1..] == x && ([a] + y)[1..] == y;
  }

  lemma {:induction false} PurgeRun(s: Store, t: Store, k: Claims, es: seq<Event>, c: string)
    requires Alike(s, t, k, c) && !("controller." <= c)
    ensures Answers(s, es, c) == Answers(t, Purged(es, c), c) <==> NeverNamesClaimed(s, k, es, c)
    ensures NeverNamesClaimed(s, k, es, c) ==> Alike(Run(s, es), Run(t, Purged(es, c)), ClaimsAfterAll(s, k, es, c), c)
    decreases |es|
  {
    hide Step, Respond, Alike, IsForeign, Asks, NamesClaimed, ClaimsAfter;
    if es != [] {
      var e, rest := es[0], es[1..];
      if IsForeign(e, c) {
        ForeignDoesNotAsk(e, c);
        if NamesClaimed(s, k, e, c) { ClaimIsOwnCall(s, k, e, c); }
        ForeignStep(s, t, k, e, c);
        PurgeRun(Step(s, e), t, ClaimsAfter(s, k, e, c), rest, c);
      } else {
        assert Purged(es, c)[0] == e && Purged(es, c)[1..] == Purged(rest, c);
        if NamesClaimed(s, k, e, c) {
          ClaimIsOwnCall(s, k, e, c);
          OwnRespondAlike(s, t, k, e, c);
          assert Answers(s, es, c)[0] != Answers(t, Purged(es, c), c)[0];
        } else {
          if Asks(e, c) {
            OwnRespondAlike(s, t, k, e, c);
            SameHead(Respond(s, e.request), Answers(Step(s, e), rest, c), Answers(Step(t, e), Purged(rest, c), c));
          }
          SharedStep(s, t, k, e, c);
          PurgeRun(Step(s, e), Step(t, e), ClaimsAfter(s, k, e, c), rest, c);
        }
      }
    }
  }

  lemma AlikeToItself(s: Store, c: string)
    ensures Alike(s, s, NONE, c)
  {
  }

  /** Noninterference, exactly. From any store and over any run, deleting every
      request by another node changes what `c` is told on its registrations and
      heartbeats if and only if `c` names an id claimed by a foreign registration. */
  lemma {:induction false} OthersMatterIffClaimedIdNamed(s: Store, es: seq<Event>, c: string)
    requires !("controller." <= c)
    ensures Answers(s, es, c) == Answers(s, Purged(es, c), c) <==> NeverNamesClaimed(s, NONE, es, c)
  {
    AlikeToItself(s, c);
    PurgeRun(s, s, NONE, es, c);
  }

  /** If it never does, its audit trail is the same as well, and so are its rows,
      if and only if no controller has tried to register a taken id for it. */
  lemma {:induction false} TrailAndRowsWithoutOthers(s: Store, es: seq<Event>, c: string)
    requires !("controller." <= c) && NeverNamesClaimed(s, NONE, es, c)
    ensures ActsOf(Run(s, es).audit, c) == ActsOf(Run(s, Purged(es, c)).audit, c)
    ensures NodesOf(Run(s, es).nodes, c) == NodesOf(Run(s, Purged(es, c)).nodes, c)
       <==> ClaimsAfterAll(s, NONE, es, c).stolen == {}
  {
    AlikeToItself(s, c);
    PurgeRun(s, s, NONE, es, c);
    hide Answers, NeverNamesClaimed, ClaimsAfterAll, Run, AlikeRows, NodesOf, ActsOf, Purged;
  }

  // ---------- the naming rule ----------

  /** The naming rule: a payload's `node_id` is the first label of its CN, no
      other CN shares the first label of `c`, and `c` beats under its own id. */
  ghost predicate FollowsNaming(e: Event, c: string) {
    e.Incoming? ==>
      match e.request.call
      case Register(p) =>
        p.nodeId == FirstLabel(p.commonName) && (p.commonName != c ==> FirstLabel(p.commonName) != FirstLabel(c))
      case Beat(n) => IsOwn(e, c) ==> n == FirstLabel(c)
      case _ => true
  }

  lemma NamingStep(s: Store, k: Claims, e: Event, c: string)
    requires FollowsNaming(e, c) && !("controller." <= c) && FirstLabel(c) !in k.taken && k.stolen == {}
    ensures !NamesClaimed(s, k, e, c)
    ensures FirstLabel(c) !in ClaimsAfter(s, k, e, c).taken && ClaimsAfter(s, k, e, c).stolen == {}
  {
    hide FirstLabel, Authenticate, Find;
  }

  lemma {:induction false} NamingNamesNoClaim(s: Store, k: Claims, es: seq<Event>, c: string)
    requires forall i :: 0 <= i < |es| ==> FollowsNaming(es[i], c)
    requires !("controller." <= c) && FirstLabel(c) !in k.taken && k.stolen == {}
    ensures NeverNamesClaimed(s, k, es, c) && ClaimsAfterAll(s, k, es, c).stolen == {}
    decreases |es|
  {
    hide Step, FollowsNaming, ClaimsAfter, NamesClaimed, FirstLabel;
    if es != [] {
      NamingStep(s, k, es[0], c);
      NamingNamesNoClaim(Step(s, es[0]), ClaimsAfter(s, k, es[0], c), es[1..], c);
    }
  }

  /** The purge theorem: under the naming rule, deleting every request by another
      node changes neither what node `c` is told nor its rows nor its audit
      trail. */
  lemma {:induction false} OtherNodesDoNotMatter(s: Store, es: seq<Event>, c: string)
    requires !("controller." <= c) && forall i :: 0 <= i < |es| ==> FollowsNaming(es[i], c)
    ensures Answers(s, es, c) == Answers(s, Purged(es, c), c)
    ensures NodesOf(Run(s, es).nodes, c) == NodesOf(Run(s, Purged(es, c)).nodes, c)
    ensures ActsOf(Run(s, es).audit, c) == ActsOf(Run(s, Purged(es, c)).audit, c)
  {
    hide FollowsNaming, Answers, Run, NodesOf, ActsOf, NeverNamesClaimed, ClaimsAfterAll;
    NamingNamesNoClaim(s, NONE, es, c);
    OthersMatterIffClaimedIdNamed(s, es, c);
    TrailAndRowsWithoutOthers(s, es, c);
  }

  lemma RegisterAlone(s: Store, r: Request, now: int, id: Identity)
    requires Authenticate(r.headers) == Known(id) && !IsRevoked(id, s.revoked)
    requires r.call.Register? && MayRegister(id, r.call.payload)
    ensures Respond(s, r) == if Find(s.nodes, r.call.payload.nodeId).Some? then Duplicate else Created
    ensures Respond(s, r) == Created ==> Find(Step(s, Incoming(r, now)).nodes, r.call.payload.nodeId).Some?
  {
    ServeLive(s, r, now, id);
    FindAfterAppend(s.nodes, NewRow(r.call.payload, now), r.call.payload.nodeId);
  }

  /** The shortest case: nothing in the controller ties a `node_id` to the
      registering CN, so a node that takes another's id first blocks it. */
  lemma TakenIdBlocksItsOwner(s: Store, first: Request, second: Request, d: Identity, c: Identity, now: int)
    requires Authenticate(first.headers) == Known(d) && d.IsNode() && !IsRevoked(d, s.revoked)
    requires Authenticate(second.headers) == Known(c) && c.IsNode() && !IsRevoked(c, s.revoked)
    requires first.call.Register? && first.call.payload.commonName == d.commonName
    requires second.call.Register? && second.call.payload.commonName == c.commonName != d.commonName
    requires first.call.payload.nodeId == second.call.payload.nodeId
    requires Find(s.nodes, second.call.payload.nodeId).None?
    ensures Answers(s, [Incoming(first, now), Incoming(second, now)], c.commonName) == [Duplicate]
    ensures Answers(s, Purged([Incoming(first, now), Incoming(second, now)], c.commonName), c.commonName) == [Created]
  {
    hide Step, Respond;
    var e1, e2 := Incoming(first, now), Incoming(second, now);
    RegisterAlone(s, first, now, d);
    RegisterAlone(s, second, now, c);
    AuthRevoked(s, e1);
    RegisterAlone(Step(s, e1), second, now, c);
    assert [e1, e2][1..] == [e2] && [e2][1..] == [];
    assert Answers(Step(s, e1), [e2], c.commonName) == [Duplicate];
    assert !d.IsController() by {
      assert "controller."[0] != "pi-"[0];
    }
    assert Purged([e2], c.commonName) == [e2];
    assert Purged([e1, e2], c.commonName) == [e2];
  }
}
