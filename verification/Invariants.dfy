/** What every step of the interleaved controller keeps. */
module Invariants {
  import opened Wrappers
  import opened Tables
  import opened Security
  import opened Requests
  import opened Interleaving

  // ---------- the invariant ----------

  /** What the committed tables satisfy, in this process or an earlier one. */
  ghost predicate TablesOk(nodes: seq<NodeRow>, audit: seq<AuditRow>) {
    Distinct(nodes) && Ids(nodes) == RegisteredIds(audit)
  }

  ghost predicate IsEventOf(r: Request, reply: Response, event: AuditRow) {
    && Authenticate(r.headers).Known?
    && EventFor(Actor(r), r.call, reply, event.timestamp) == Some(event)
  }

  /** A beat's UPDATE still points at the row it read, and that row is the
      sender's; it may have been activated by another beat in the meantime. */
  ghost predicate UpdateOk(nodes: seq<NodeRow>, r: Request, reply: Response, update: Option<Update>) {
    && (update.Some? <==> reply.Activated? || reply.Beaten?)
    && (update.Some? ==>
          && var u := update.value;
          && Authenticate(r.headers).Known? && r.call.Beat? && u.row < |nodes|
          && nodes[u.row].base.nodeId == r.call.nodeId
          && nodes[u.row].base.commonName == Actor(r).commonName
          && u.activate == reply.Activated?
          && (u.activate ==> nodes[u.row].base.state == Onboarding || nodes[u.row].base.state == Active))
  }

  ghost predicate InsertOk(nodes: seq<NodeRow>, r: Request, reply: Response, insert: Option<NodeRow>) {
    && (insert.Some? <==> reply.Created?)
    && (insert.Some? ==>
          && r.call.Register? && insert.value.base == r.call.payload
          && Find(nodes, r.call.payload.nodeId).None?)
  }

  predicate IsStoredAs(base: NodeBase, p: NodeBase) {
    base == p || (p.state == Onboarding && base == p.(state := Active))
  }

  /** The table holds the registered payload, perhaps activated since. */
  ghost predicate Stored(nodes: seq<NodeRow>, p: NodeBase) {
    exists i :: 0 <= i < |nodes| && IsStoredAs(nodes[i].base, p)
  }

  /** What a request bound to (or finished with) `reply` has behind it. */
  ghost predicate ReplyOk(s: System, q: nat, r: Request, reply: Response, logged: Option<nat>) {
    && (logged.Some? <==> reply.Audited())
    && (logged.Some? ==>
          && s.base <= logged.value < |s.audit| == s.base + |s.authors|
          && s.authors[logged.value - s.base] == q
          && IsEventOf(r, reply, s.audit[logged.value]))
    && (reply.Created? || reply.Duplicate? ==> r.call.Register? && Find(s.nodes, r.call.payload.nodeId).Some?)
    && (reply.Created? ==> Stored(s.nodes, r.call.payload))
    && (r.call.Register? ==> !reply.Activated? && !reply.Beaten? && !reply.Fetched?)
  }

  ghost predicate FlightOk(s: System, q: nat, f: Flight) {
    var r := f.request;
    match f.phase
    case Received => !Owns(s, q)
    case Identified => !Owns(s, q) && Authenticate(r.headers).Known?
    case Admitted => !Owns(s, q) && Authenticate(r.headers).Known?
    case Inserting => !Owns(s, q) && Authenticate(r.headers).Known? && r.call.Register?
    case Recording(event, update, reply) =>
      IsEventOf(r, reply, event) && UpdateOk(s.nodes, r, reply, update) && (Owns(s, q) <==> reply.Created?)
    case Counting(reply) => Owns(s, q)
    case Updating(change, reply) => !Owns(s, q) && reply.Beaten? && UpdateOk(s.nodes, r, reply, Some(change))
    case Committing(reply) => Owns(s, q)
    case Closing(reply, logged) => !Owns(s, q) && ReplyOk(s, q, r, reply, logged)
    case Answered(response, reply, logged) =>
      !Owns(s, q) && ReplyOk(s, q, r, reply, logged) && (response == reply || response == Failure)
  }

  /** The open transaction holds what its owner's phase says it holds. */
  ghost predicate WriterOk(s: System) {
    s.writer.Some? ==>
      && var t := s.writer.value;
      && t.owner in s.flights
      && var f := s.flights[t.owner];
         match f.phase
         case Recording(_, _, reply) =>
           InsertOk(s.nodes, f.request, reply, t.insert) && t.update.None? && t.event.None? && !t.counted
         case Counting(reply) =>
           && InsertOk(s.nodes, f.request, reply, t.insert) && UpdateOk(s.nodes, f.request, reply, t.update)
           && t.event.Some? && IsEventOf(f.request, reply, t.event.value) && !t.counted
         case Committing(reply) =>
           && InsertOk(s.nodes, f.request, reply, t.insert) && UpdateOk(s.nodes, f.request, reply, t.update)
           && (t.event.Some? <==> reply.Audited()) && t.counted == t.event.Some?
           && (t.event.Some? ==> IsEventOf(f.request, reply, t.event.value))
           && (reply.Created? || reply.Activated? || reply.Beaten? || t.event.Some?)
         case _ => false
  }

  function LoggedBy(f: Flight): Option<nat> {
    match f.phase
    case Closing(_, logged) => logged
    case Answered(_, _, logged) => logged
    case _ => None
  }

  /** Every row since the start has a request behind it. */
  ghost predicate AuthorsOk(s: System) {
    && |s.audit| == s.base + |s.authors|
    && forall i :: 0 <= i < |s.authors| ==>
         s.authors[i] in s.flights && LoggedBy(s.flights[s.authors[i]]) == Some(s.base + i)
  }

  ghost predicate CounterOk(s: System) {
    s.base <= |s.audit| && s.counter == Kinds(s.audit[s.base..]) + Uncommitted(s) + s.lost
  }

  ghost predicate FlightsOk(s: System) {
    && (forall q :: q in s.flights ==> q < s.next)
    && (forall q :: q in s.flights ==> FlightOk(s, q, s.flights[q]))
  }

  ghost predicate Inv(s: System) {
    TablesOk(s.nodes, s.audit) && FlightsOk(s) && WriterOk(s) && AuthorsOk(s) && CounterOk(s)
  }

  // ---------- how rows may change ----------

  /** The same row, except that an onboarding node may have become active and
      its timestamps may have moved. */
  ghost predicate Carried(a: NodeRow, b: NodeRow) {
    && b.createdAt == a.createdAt
    && (b.base == a.base || (a.base.state == Onboarding && b.base == a.base.(state := Active)))
  }

  ghost predicate Extends(nodes: seq<NodeRow>, after: seq<NodeRow>) {
    |nodes| <= |after| && forall i :: 0 <= i < |nodes| ==> Carried(nodes[i], after[i])
  }

  lemma FoundStaysFound(nodes: seq<NodeRow>, after: seq<NodeRow>, id: string)
    requires Extends(nodes, after) && Find(nodes, id).Some?
    ensures Find(after, id).Some?
  {
    var i := Find(nodes, id).value;
    assert after[i].base.nodeId == id;
  }

  lemma StoredStaysStored(nodes: seq<NodeRow>, after: seq<NodeRow>, p: NodeBase)
    requires Extends(nodes, after) && Stored(nodes, p)
    ensures Stored(after, p)
  {
    var i :| 0 <= i < |nodes| && IsStoredAs(nodes[i].base, p);
    assert Carried(nodes[i], after[i]);
  }

  lemma ReplyOkLater(s: System, t: System, q: nat, r: Request, reply: Response, logged: Option<nat>)
    requires ReplyOk(s, q, r, reply, logged) && Extends(s.nodes, t.nodes)
    requires s.base == t.base && s.audit <= t.audit && s.authors <= t.authors && |t.audit| == t.base + |t.authors|
    ensures ReplyOk(t, q, r, reply, logged)
  {
    hide Stored, Find, Extends, IsEventOf;
    if reply.Created? || reply.Duplicate? {
      FoundStaysFound(s.nodes, t.nodes, r.call.payload.nodeId);
    }
    if reply.Created? {
      StoredStaysStored(s.nodes, t.nodes, r.call.payload);
    }
  }

  lemma FlightOkLater(s: System, t: System, q: nat, f: Flight)
    requires FlightOk(s, q, f) && Owns(s, q) == Owns(t, q)
    requires Extends(s.nodes, t.nodes)
    requires s.base == t.base && s.audit <= t.audit && s.authors <= t.authors && |t.audit| == t.base + |t.authors|
    ensures FlightOk(t, q, f)
  {
    hide ReplyOk, IsEventOf;
    match f.phase
    case Closing(reply, logged) => ReplyOkLater(s, t, q, f.request, reply, logged);
    case Answered(response, reply, logged) => ReplyOkLater(s, t, q, f.request, reply, logged);
    case _ =>
  }

  // ---------- the shapes of a step ----------

  /** What happens to one request does not spoil the others. */
  lemma OthersStayOk(s: System, t: System, q: nat, f: Flight)
    requires FlightsOk(s) && q in s.flights
    requires t.flights == s.flights[q := f] && t.next == s.next
    requires Extends(s.nodes, t.nodes)
    requires s.base == t.base && s.audit <= t.audit && s.authors <= t.authors && |t.audit| == t.base + |t.authors|
    requires forall k :: k in s.flights && k != q ==> Owns(s, k) == Owns(t, k)
    requires FlightOk(t, q, f)
    ensures FlightsOk(t)
  {
    hide FlightOk, Extends, Owns;
    forall k | k in t.flights ensures FlightOk(t, k, t.flights[k]) {
      if k != q {
        FlightOkLater(s, t, k, s.flights[k]);
      }
    }
  }

  lemma AuthorsStay(s: System, t: System, q: nat)
    requires AuthorsOk(s) && q in s.flights
    requires t.base == s.base && t.audit == s.audit && t.authors == s.authors
    requires q in t.flights && t.flights == s.flights[q := t.flights[q]]
    requires LoggedBy(s.flights[q]).Some? ==> LoggedBy(t.flights[q]) == LoggedBy(s.flights[q])
    ensures AuthorsOk(t)
  {
  }

  /** `q` moves on without touching the database. */
  lemma MoveKeepsInv(s: System, t: System, q: nat, phase: Phase)
    requires Inv(s) && q in s.flights && !Owns(s, q)
    requires t == Move(s, q, phase).(auth := t.auth)
    requires LoggedBy(s.flights[q]).Some? ==> LoggedBy(t.flights[q]) == LoggedBy(s.flights[q])
    requires FlightOk(t, q, t.flights[q])
    ensures Inv(t)
  {
    hide FlightOk, FlightsOk, LoggedBy, AuthorsOk;
    AuthorsStay(s, t, q);
    OthersStayOk(s, t, q, t.flights[q]);
  }

  /** `q` holds or takes the write lock, and nothing is committed. */
  lemma LockKeepsInv(s: System, t: System, q: nat, phase: Phase, w: Txn)
    requires Inv(s) && q in s.flights && (s.writer.None? || Owns(s, q)) && w.owner == q
    requires t == Move(s, q, phase).(writer := Some(w), counter := t.counter)
    requires LoggedBy(s.flights[q]).None?
    requires FlightOk(t, q, t.flights[q]) && WriterOk(t) && CounterOk(t)
    ensures Inv(t)
  {
    hide FlightOk, FlightsOk, WriterOk, LoggedBy, AuthorsOk, CounterOk;
    AuthorsStay(s, t, q);
    OthersStayOk(s, t, q, t.flights[q]);
  }

  // ---------- the steps ----------

  lemma EnterIsMove(s: System, q: nat, now: int)
    requires q in s.flights && s.flights[q].phase == Admitted
    ensures var t := Enter(s, q, now);
      q in t.flights && t == Move(s, q, t.flights[q].phase)
  {
    hide Decide, Authenticate, StateChangeEvent, ForeignRegisterEvent, ForeignBeatEvent, Find;
  }

  lemma EnterRegisterOk(s: System, q: nat, now: int)
    requires q in s.flights && !Owns(s, q) && Authenticate(s.flights[q].request.headers).Known?
    requires s.flights[q].request.call.Register?
    ensures q in Enter(s, q, now).flights
    ensures FlightOk(Enter(s, q, now), q, Enter(s, q, now).flights[q])
  {
    hide Authenticate, Find;
  }

  lemma EnterBeatOk(s: System, q: nat, now: int)
    requires q in s.flights && !Owns(s, q) && Authenticate(s.flights[q].request.headers).Known?
    requires s.flights[q].request.call.Beat?
    ensures q in Enter(s, q, now).flights
    ensures FlightOk(Enter(s, q, now), q, Enter(s, q, now).flights[q])
  {
    hide Authenticate, Find;
    var r, t := s.flights[q].request, Enter(s, q, now);
    if Find(s.nodes, r.call.nodeId).Some? {
      assert s.nodes[Find(s.nodes, r.call.nodeId).value].base.nodeId == r.call.nodeId;
    }
  }

  lemma EnterReadOk(s: System, q: nat, now: int)
    requires q in s.flights && !Owns(s, q) && Authenticate(s.flights[q].request.headers).Known?
    requires s.flights[q].request.call.GetNode? || s.flights[q].request.call.ListRows?
    ensures q in Enter(s, q, now).flights
    ensures FlightOk(Enter(s, q, now), q, Enter(s, q, now).flights[q])
  {
    hide Authenticate, Find;
  }

  lemma EnterKeepsInv(s: System, q: nat, now: int)
    requires Inv(s) && q in s.flights && s.flights[q].phase == Admitted
    ensures Inv(Enter(s, q, now))
  {
    var t, call := Enter(s, q, now), s.flights[q].request.call;
    assert !Owns(s, q) && Authenticate(s.flights[q].request.headers).Known? by {
      assert FlightOk(s, q, s.flights[q]);
    }
    hide Enter, FlightOk, FlightsOk;
    EnterIsMove(s, q, now);
    if call.Register? {
      EnterRegisterOk(s, q, now);
    } else if call.Beat? {
      EnterBeatOk(s, q, now);
    } else {
      EnterReadOk(s, q, now);
    }
    MoveKeepsInv(s, t, q, t.flights[q].phase);
  }

  lemma InsertingKeepsInv(s: System, q: nat, now: int)
    requires Inv(s) && q in s.flights && s.flights[q].phase == Inserting
    ensures Inv(Progress(s, q, now))
  {
    assert FlightOk(s, q, s.flights[q]);
    var t := InsertNode(s, q, now);
    if s.writer.None? {
      if Find(s.nodes, s.flights[q].request.call.payload.nodeId).Some? {
        assert FlightOk(t, q, t.flights[q]);
        hide FlightOk, TablesOk, FlightsOk, WriterOk, CounterOk, AuthorsOk;
        MoveKeepsInv(s, t, q, t.flights[q].phase);
      } else {
        assert FlightOk(t, q, t.flights[q]) && WriterOk(t) && CounterOk(t);
        hide FlightOk, TablesOk, FlightsOk, WriterOk, CounterOk, AuthorsOk;
        LockKeepsInv(s, t, q, t.flights[q].phase, t.writer.value);
      }
    }
  }

  lemma RecordingKeepsInv(s: System, q: nat, now: int)
    requires Inv(s) && q in s.flights && s.flights[q].phase.Recording?
    ensures Inv(Progress(s, q, now))
  {
    assert FlightOk(s, q, s.flights[q]);
    var t := Progress(s, q, now);
    if s.writer.None? || Owns(s, q) {
      LockKeepsInv(s, t, q, t.flights[q].phase, t.writer.value);
    }
  }

  lemma CountingKeepsInv(s: System, q: nat, now: int)
    requires Inv(s) && q in s.flights && s.flights[q].phase.Counting?
    ensures Inv(Progress(s, q, now))
  {
    assert FlightOk(s, q, s.flights[q]);
    var t := Progress(s, q, now);
    LockKeepsInv(s, t, q, t.flights[q].phase, t.writer.value);
  }

  lemma UpdatingKeepsInv(s: System, q: nat, now: int)
    requires Inv(s) && q in s.flights && s.flights[q].phase.Updating?
    ensures Inv(Progress(s, q, now))
  {
    assert FlightOk(s, q, s.flights[q]);
    if s.writer.None? {
      var t := Progress(s, q, now);
      LockKeepsInv(s, t, q, t.flights[q].phase, t.writer.value);
    }
  }

  // ---------- commit ----------

  lemma CommitExtends(s: System, q: nat)
    requires Inv(s) && q in s.flights && s.flights[q].phase.Committing?
    ensures Owns(s, q) && Extends(s.nodes, Applied(s.nodes, s.writer.value))
  {
    assert FlightOk(s, q, s.flights[q]);
  }

  /** A committed insert brings a new id together with its NODE_REGISTER row. */
  lemma CommitKeepsTables(s: System, q: nat)
    requires Inv(s) && q in s.flights && s.flights[q].phase.Committing?
    ensures Owns(s, q)
    ensures TablesOk(Applied(s.nodes, s.writer.value), s.audit + AsSeq(s.writer.value.event))
  {
    assert FlightOk(s, q, s.flights[q]);
    var t, r := s.writer.value, s.flights[q].request;
    var after := Applied(s.nodes, t);
    CommitExtends(s, q);
    if t.event.Some? {
      RegisteredIdsOfAppend(s.audit, t.event.value);
    } else {
      assert s.audit + AsSeq(t.event) == s.audit;
    }
    if t.insert.Some? {
      assert after[..|s.nodes|] == s.nodes;
      assert Ids(after) == Ids(s.nodes) + [t.insert.value.base.nodeId];
    } else {
      assert Ids(after) == Ids(s.nodes);
    }
  }

  lemma CommitIsCounted(s: System, q: nat)
    requires Inv(s) && q in s.flights && s.flights[q].phase.Committing?
    ensures Owns(s, q) && s.writer.value.counted == s.writer.value.event.Some?
  {
    assert FlightOk(s, q, s.flights[q]);
    hide EventFor, TablesOk, CounterOk, AuthorsOk, FlightsOk, IsEventOf, InsertOk, UpdateOk;
  }

  lemma CommitKeepsCounter(s: System, q: nat)
    requires Inv(s) && q in s.flights && s.flights[q].phase.Committing?
    ensures CounterOk(Progress(s, q, 0))
  {
    CommitIsCounted(s, q);
    var t, u := s.writer.value, Progress(s, q, 0);
    assert u == Commit(s, q, s.flights[q].phase.reply);
    hide Progress, FlightsOk, TablesOk, WriterOk, AuthorsOk, Applied, KindOf;
    if t.event.Some? {
      assert u.audit[s.base..] == s.audit[s.base..] + [t.event.value];
      KindsOfAppend(s.audit[s.base..], t.event.value);
    } else {
      assert u.audit == s.audit;
    }
  }

  lemma CommitStoresPayload(s: System, q: nat)
    requires Inv(s) && q in s.flights && s.flights[q].phase.Committing? && Owns(s, q)
    requires s.flights[q].phase.reply.Created?
    ensures s.flights[q].request.call.Register?
    ensures Find(Applied(s.nodes, s.writer.value), s.flights[q].request.call.payload.nodeId).Some?
    ensures Stored(Applied(s.nodes, s.writer.value), s.flights[q].request.call.payload)
  {
    hide EventFor, TablesOk, CounterOk, AuthorsOk, FlightsOk, Authenticate;
    var w := s.writer.value;
    assert Applied(s.nodes, w)[|s.nodes|] == w.insert.value;
  }

  /** The open transaction says what its owner is bound to answer. */
  lemma CommitMatchesReply(s: System, q: nat)
    requires Inv(s) && q in s.flights && s.flights[q].phase.Committing? && Owns(s, q)
    ensures var reply, r, event := s.flights[q].phase.reply, s.flights[q].request, s.writer.value.event;
      && (event.Some? <==> reply.Audited())
      && (event.Some? ==> IsEventOf(r, reply, event.value))
      && !reply.Duplicate? && (r.call.Register? ==> !reply.Activated? && !reply.Beaten? && !reply.Fetched?)
  {
    hide EventFor, TablesOk, CounterOk, AuthorsOk, FlightsOk, Authenticate, Find, InsertOk;
  }

  lemma LoggedReplyOk(s: System, u: System, q: nat, r: Request, reply: Response, event: Option<AuditRow>)
    requires u.base == s.base && |s.audit| == s.base + |s.authors|
    requires u.audit == s.audit + AsSeq(event) && u.authors == s.authors + (if event.Some? then [q] else [])
    requires (event.Some? <==> reply.Audited()) && (event.Some? ==> IsEventOf(r, reply, event.value))
    requires !reply.Duplicate? && (r.call.Register? ==> !reply.Activated? && !reply.Beaten? && !reply.Fetched?)
    requires reply.Created? ==>
               r.call.Register? && Find(u.nodes, r.call.payload.nodeId).Some? && Stored(u.nodes, r.call.payload)
    ensures ReplyOk(u, q, r, reply, if event.Some? then Some(|s.audit|) else None)
  {
    hide IsEventOf, Stored, Find;
  }

  lemma CommitClosesWell(s: System, q: nat)
    requires Inv(s) && q in s.flights && s.flights[q].phase.Committing?
    ensures FlightOk(Progress(s, q, 0), q, Progress(s, q, 0).flights[q])
  {
    assert Owns(s, q) by { assert FlightOk(s, q, s.flights[q]); }
    var r, reply := s.flights[q].request, s.flights[q].phase.reply;
    var u := Progress(s, q, 0);
    assert u == Commit(s, q, reply);
    LogLength(s);
    CommitMatchesReply(s, q);
    if reply.Created? {
      CommitStoresPayload(s, q);
    }
    hide Inv, Progress, Applied, Stored, Find, IsEventOf, ReplyOk;
    LoggedReplyOk(s, u, q, r, reply, s.writer.value.event);
  }

  lemma AuthorsGrow(s: System, u: System, q: nat)
    requires AuthorsOk(s) && q in s.flights && LoggedBy(s.flights[q]).None?
    requires q in u.flights && u.flights == s.flights[q := u.flights[q]] && u.base == s.base
    requires u.authors == s.authors + [q] && |u.audit| == |s.audit| + 1
    requires LoggedBy(u.flights[q]) == Some(|s.audit|)
    ensures AuthorsOk(u)
  {
    forall i | 0 <= i < |u.authors|
      ensures u.authors[i] in u.flights && LoggedBy(u.flights[u.authors[i]]) == Some(u.base + i)
    {
      if i < |s.authors| {
        assert u.authors[i] == s.authors[i] != q;
      }
    }
  }

  lemma CommitKeepsAuthors(s: System, q: nat)
    requires Inv(s) && q in s.flights && s.flights[q].phase.Committing?
    ensures AuthorsOk(Progress(s, q, 0))
  {
    assert Owns(s, q) by { assert FlightOk(s, q, s.flights[q]); }
    var u := Progress(s, q, 0);
    hide FlightsOk, TablesOk, WriterOk, CounterOk, Applied, AuthorsOk;
    if s.writer.value.event.Some? {
      AuthorsGrow(s, u, q);
    } else {
      assert u.audit == s.audit && u.authors == s.authors;
      AuthorsStay(s, u, q);
    }
  }

  lemma CommittingKeepsInv(s: System, q: nat, now: int)
    requires Inv(s) && q in s.flights && s.flights[q].phase.Committing?
    ensures Inv(Progress(s, q, now))
  {
    var u := Progress(s, q, now);
    assert u == Progress(s, q, 0);
    CommitExtends(s, q);
    CommitKeepsTables(s, q);
    CommitKeepsCounter(s, q);
    CommitClosesWell(s, q);
    CommitKeepsAuthors(s, q);
    hide FlightOk, TablesOk, Applied, FlightsOk, AuthorsOk, CounterOk;
    assert |u.audit| == u.base + |u.authors| by {
      CommitAddsAuthor(s, u);
    }
    OthersStayOk(s, u, q, u.flights[q]);
  }

  lemma CommitAddsAuthor(s: System, u: System)
    requires AuthorsOk(u)
    ensures |u.audit| == u.base + |u.authors|
  {
  }

  // ---------- all steps ----------

  lemma LaterByFlights(s: System, t: System, q: nat, f: Flight)
    requires FlightOk(s, q, f)
    requires t == s.(flights := t.flights, revoked := t.revoked, auth := t.auth, next := t.next)
    ensures FlightOk(t, q, f)
  {
  }

  lemma ReceivedFlightOk(s: System, q: nat, now: int)
    requires q in s.flights && s.flights[q].phase == Received && !Owns(s, q)
    ensures var t := Progress(s, q, now);
      && q in t.flights && t == Move(s, q, t.flights[q].phase).(auth := t.auth)
      && FlightOk(t, q, t.flights[q])
  {
    hide Authenticate, EventFor;
  }

  lemma ReceivedKeepsInv(s: System, q: nat, now: int)
    requires Inv(s) && q in s.flights && s.flights[q].phase == Received
    ensures Inv(Progress(s, q, now))
  {
    assert !Owns(s, q) && LoggedBy(s.flights[q]).None? by { assert FlightOk(s, q, s.flights[q]); }
    var t := Progress(s, q, now);
    hide Inv, FlightOk, LoggedBy, Progress;
    ReceivedFlightOk(s, q, now);
    MoveKeepsInv(s, t, q, t.flights[q].phase);
  }

  lemma IdentifiedFlightOk(s: System, q: nat, now: int)
    requires q in s.flights && s.flights[q].phase == Identified
    requires !Owns(s, q) && Authenticate(s.flights[q].request.headers).Known?
    ensures q in Progress(s, q, now).flights
    ensures FlightOk(Progress(s, q, now), q, Progress(s, q, now).flights[q])
  {
    hide Authenticate, PrintHex;
  }

  lemma IdentifiedKeepsInv(s: System, q: nat, now: int)
    requires Inv(s) && q in s.flights && s.flights[q].phase == Identified
    ensures Inv(Progress(s, q, now))
  {
    assert FlightOk(s, q, s.flights[q]);
    var t := Progress(s, q, now);
    IdentifiedFlightOk(s, q, now);
    hide FlightOk, TablesOk, WriterOk, CounterOk, AuthorsOk, FlightsOk;
    MoveKeepsInv(s, t, q, t.flights[q].phase);
  }

  /** After the commit the client hears `response`: the reply, or a failure. */
  lemma ClosingKeepsInv(s: System, q: nat, response: Response)
    requires Inv(s) && q in s.flights && s.flights[q].phase.Closing?
    requires response == s.flights[q].phase.reply || response == Failure
    ensures Inv(Move(s, q, Answered(response, s.flights[q].phase.reply, s.flights[q].phase.logged)))
  {
    var phase := s.flights[q].phase;
    var f := Flight(s.flights[q].request, Answered(response, phase.reply, phase.logged));
    var t := Move(s, q, f.phase);
    assert FlightOk(s, q, s.flights[q]);
    assert FlightOk(s, q, f) && !Owns(s, q);
    hide FlightOk, TablesOk, WriterOk, CounterOk, AuthorsOk, FlightsOk;
    LaterByFlights(s, t, q, f);
    MoveKeepsInv(s, t, q, f.phase);
  }

  lemma ProgressKeepsInv(s: System, q: nat, now: int)
    requires Inv(s) && q in s.flights
    ensures Inv(Progress(s, q, now))
  {
    hide Inv, Enter;
    match s.flights[q].phase
    case Received => hide Progress; ReceivedKeepsInv(s, q, now);
    case Identified => hide Progress; IdentifiedKeepsInv(s, q, now);
    case Admitted => EnterKeepsInv(s, q, now);
    case Inserting => hide Progress; InsertingKeepsInv(s, q, now);
    case Recording(_, _, _) => hide Progress; RecordingKeepsInv(s, q, now);
    case Counting(_) => hide Progress; CountingKeepsInv(s, q, now);
    case Updating(_, _) => hide Progress; UpdatingKeepsInv(s, q, now);
    case Committing(_) => hide Progress; CommittingKeepsInv(s, q, now);
    case Closing(reply, _) => ClosingKeepsInv(s, q, reply);
    case Answered(_, _, _) =>
  }

  /** A rollback frees the lock, and the counted row it removes is remembered. */
  lemma RollbackKeepsInv(s: System, q: nat)
    requires Inv(s) && q in s.flights && Owns(s, q)
    ensures Inv(Abandon(s, q))
  {
    assert LoggedBy(s.flights[q]).None? by { assert FlightOk(s, q, s.flights[q]); }
    var t := Move(RolledBack(s, q), q, Answered(Failure, Failure, None));
    assert t == Abandon(s, q);
    assert FlightOk(t, q, t.flights[q]);
    NoWriterIsOk(t);
    LogLength(s);
    assert CounterOk(t) by { hide FlightOk, FlightsOk, WriterOk, AuthorsOk, TablesOk; }
    hide FlightOk, FlightsOk, WriterOk, AuthorsOk, TablesOk, CounterOk, Abandon;
    AuthorsStay(s, t, q);
    OthersStayOk(s, t, q, t.flights[q]);
  }

  lemma NoWriterIsOk(t: System)
    requires t.writer.None?
    ensures WriterOk(t)
  {
  }

  lemma LogLength(s: System)
    requires AuthorsOk(s)
    ensures |s.audit| == s.base + |s.authors|
  {
  }

  lemma GiveUpKeepsInv(s: System, q: nat)
    requires Inv(s) && q in s.flights && !Owns(s, q) && LoggedBy(s.flights[q]).None?
    ensures Inv(Answer(s, q, Failure))
  {
    var t := Answer(s, q, Failure);
    assert FlightOk(t, q, t.flights[q]);
    hide FlightOk, FlightsOk, WriterOk, AuthorsOk, TablesOk, CounterOk, LoggedBy;
    MoveKeepsInv(s, t, q, t.flights[q].phase);
  }

  lemma AbandonKeepsInv(s: System, q: nat)
    requires Inv(s) && q in s.flights
    ensures Inv(Abandon(s, q))
  {
    hide Inv;
    if Owns(s, q) {
      RollbackKeepsInv(s, q);
    } else if s.flights[q].phase.Closing? {
      ClosingKeepsInv(s, q, Failure);
    } else if !s.flights[q].phase.Answered? {
      GiveUpKeepsInv(s, q);
    }
  }

  lemma ArriveKeepsInv(s: System, r: Request)
    requires Inv(s)
    ensures Inv(Step(s, Arrive(r)))
  {
    var t, q := Step(s, Arrive(r)), s.next;
    assert q !in s.flights by { hide FlightOk, TablesOk, WriterOk, AuthorsOk, CounterOk; }
    assert !Owns(s, q) by { hide FlightOk, TablesOk, FlightsOk, AuthorsOk, CounterOk; }
    assert FlightOk(t, q, t.flights[q]) by { hide Inv; }
    hide FlightOk, TablesOk, CounterOk, IsEventOf, InsertOk, UpdateOk;
    forall k | k in s.flights ensures FlightOk(t, k, t.flights[k]) {
      LaterByFlights(s, t, k, s.flights[k]);
    }
  }

  lemma InstallKeepsInv(s: System, serials: set<nat>)
    requires Inv(s)
    ensures Inv(Step(s, Install(serials)))
  {
    var t := Step(s, Install(serials));
    hide FlightOk;
    forall k | k in t.flights ensures FlightOk(t, k, t.flights[k]) {
      LaterByFlights(s, t, k, s.flights[k]);
    }
  }

  lemma StartIsInv(nodes: seq<NodeRow>, audit: seq<AuditRow>, next: nat)
    requires TablesOk(nodes, audit)
    ensures Inv(Start(nodes, audit, next))
  {
    assert audit[|audit|..] == [];
  }

  lemma StepKeepsInv(s: System, e: Event)
    requires Inv(s)
    ensures Inv(Step(s, e))
  {
    match e
    case Arrive(r) => ArriveKeepsInv(s, r);
    case Advance(q, now) => if q in s.flights { ProgressKeepsInv(s, q, now); }
    case Fail(q) => if q in s.flights { AbandonKeepsInv(s, q); }
    case Install(serials) => InstallKeepsInv(s, serials);
    case Restart => StartIsInv(s.nodes, s.audit, s.next);
  }

  lemma {:induction false} RunKeepsInv(s: System, es: seq<Event>)
    requires Inv(s)
    ensures Inv(Run(s, es))
    decreases |es|
  {
    hide Step, Inv;
    if es != [] {
      StepKeepsInv(s, es[0]);
      RunKeepsInv(Step(s, es[0]), es[1..]);
    }
  }
}
