/** What holds over every run of the interleaved controller, whatever the
    interleaving, the failures and the restarts. */
module Safety {
  import opened Wrappers
  import opened Tables
  import opened Security
  import opened Requests
  import opened Interleaving
  import opened Invariants

  // ---------- the tables ----------

  /** Node ids stay unique and the node rows are, in order, exactly the
      committed NODE_REGISTER/SUCCESS rows. */
  lemma NodesMatchRegistrations(nodes: seq<NodeRow>, audit: seq<AuditRow>, next: nat, es: seq<Event>)
    requires Distinct(nodes) && Ids(nodes) == RegisteredIds(audit)
    ensures Distinct(Run(Start(nodes, audit, next), es).nodes)
    ensures Ids(Run(Start(nodes, audit, next), es).nodes) == RegisteredIds(Run(Start(nodes, audit, next), es).audit)
  {
    StartIsInv(nodes, audit, next);
    RunKeepsInv(Start(nodes, audit, next), es);
  }

  /** Since the last start, each labelled counter is the rows committed, plus
      the rows recorded but not committed, plus the rows lost to a rollback. */
  lemma CounterIsConserved(nodes: seq<NodeRow>, audit: seq<AuditRow>, next: nat, es: seq<Event>)
    requires Distinct(nodes) && Ids(nodes) == RegisteredIds(audit)
    ensures var t := Run(Start(nodes, audit, next), es);
      && t.base <= |t.audit|
      && t.counter == Kinds(t.audit[t.base..]) + Uncommitted(t) + t.lost
      && Kinds(t.audit[t.base..]) <= t.counter
  {
    StartIsInv(nodes, audit, next);
    RunKeepsInv(Start(nodes, audit, next), es);
  }

  // ---------- one row may only be activated, and then there is a record ----------

  predicate IsActivation(row: AuditRow, nodeId: string) {
    && row.action == NodeStateChange && row.result == Success
    && row.target == NodeTarget(nodeId) && row.details == Moved(Onboarding, Active)
  }

  ghost predicate HasActivation(rows: seq<AuditRow>, nodeId: string) {
    exists j :: 0 <= j < |rows| && IsActivation(rows[j], nodeId)
  }

  /** From `s` to `t` no row is lost or reordered, rows change only as `Carried`
      allows, and a row whose state moved has an activation row committed in
      between. */
  ghost predicate Evolves(s: System, t: System) {
    && Extends(s.nodes, t.nodes)
    && s.audit <= t.audit
    && forall i :: 0 <= i < |s.nodes| && s.nodes[i].base.state != t.nodes[i].base.state ==>
         HasActivation(t.audit[|s.audit|..], s.nodes[i].base.nodeId)
  }

  lemma HasActivationWider(rows: seq<AuditRow>, front: seq<AuditRow>, back: seq<AuditRow>, nodeId: string)
    requires HasActivation(rows, nodeId)
    ensures HasActivation(front + rows + back, nodeId)
  {
    var j :| 0 <= j < |rows| && IsActivation(rows[j], nodeId);
    assert (front + rows + back)[|front| + j] == rows[j];
  }

  lemma EvolvesTransitively(s: System, t: System, u: System)
    requires Evolves(s, t) && Evolves(t, u)
    ensures Evolves(s, u)
  {
    var first, second, both := t.audit[|s.audit|..], u.audit[|t.audit|..], u.audit[|s.audit|..];
    assert both == first + second;
    forall i | 0 <= i < |s.nodes| && s.nodes[i].base.state != u.nodes[i].base.state
      ensures HasActivation(both, s.nodes[i].base.nodeId)
    {
      var id := s.nodes[i].base.nodeId;
      assert t.nodes[i].base.nodeId == id;
      if s.nodes[i].base.state != t.nodes[i].base.state {
        HasActivationWider(first, [], second, id);
        assert [] + first + second == both;
      } else {
        HasActivationWider(second, first, [], id);
        assert first + second + [] == both;
      }
    }
  }

  lemma SameTablesEvolve(s: System, t: System)
    requires s.nodes == t.nodes && s.audit == t.audit
    ensures Evolves(s, t)
  {
  }

  lemma ProgressKeepsTables(s: System, q: nat, now: int)
    requires q in s.flights && !s.flights[q].phase.Committing?
    ensures Progress(s, q, now).nodes == s.nodes && Progress(s, q, now).audit == s.audit
  {
    hide Authenticate, Decide, Find, EventFor;
  }

  lemma CommitEvolves(s: System, q: nat, now: int)
    requires Inv(s) && q in s.flights && s.flights[q].phase.Committing?
    ensures Evolves(s, Progress(s, q, now))
  {
    assert FlightOk(s, q, s.flights[q]);
    CommitExtends(s, q);
    var t, w := Progress(s, q, now), s.writer.value;
    forall i | 0 <= i < |s.nodes| && s.nodes[i].base.state != t.nodes[i].base.state
      ensures HasActivation(t.audit[|s.audit|..], s.nodes[i].base.nodeId)
    {
      assert w.update.Some? && i == w.update.value.row && w.update.value.activate;
      assert t.audit[|s.audit|..] == [w.event.value];
      assert IsActivation([w.event.value][0], s.nodes[i].base.nodeId);
    }
  }

  lemma StepEvolves(s: System, e: Event)
    requires Inv(s)
    ensures Evolves(s, Step(s, e))
  {
    hide Inv, Evolves;
    match e
    case Advance(q, now) =>
      if q in s.flights {
        if s.flights[q].phase.Committing? {
          CommitEvolves(s, q, now);
        } else {
          ProgressKeepsTables(s, q, now);
          SameTablesEvolve(s, Step(s, e));
        }
      } else {
        SameTablesEvolve(s, s);
      }
    case _ => SameTablesEvolve(s, Step(s, e));
  }

  /** State only ever moves from onboarding to active, and every row that moved
      has a committed state-change row. */
  lemma {:induction false} RowsOnlyActivate(s: System, es: seq<Event>)
    requires Inv(s)
    ensures Evolves(s, Run(s, es))
    decreases |es|
  {
    hide Step, Inv, Evolves;
    if es == [] {
      SameTablesEvolve(s, s);
    } else {
      StepKeepsInv(s, es[0]);
      StepEvolves(s, es[0]);
      RowsOnlyActivate(Step(s, es[0]), es[1..]);
      EvolvesTransitively(s, Step(s, es[0]), Run(s, es));
    }
  }

  // ---------- only its own node changes a row ----------

  /** The row update this event commits, if it is the commit of a heartbeat that
      names `nodeId` and shows a certificate for `c`. */
  function OwnBeat(s: System, e: Event, nodeId: string, c: string): Option<Update> {
    if e.Advance? && e.q in s.flights && s.flights[e.q].phase.Committing? && Owns(s, e.q)
       && IsBy(s.flights[e.q].request, c) && s.flights[e.q].request.call == Beat(nodeId)
    then s.writer.value.update
    else None
  }

  function OwnBeats(s: System, es: seq<Event>, nodeId: string, c: string): seq<Update>
    decreases |es|
  {
    if es == [] then [] else AsSeq(OwnBeat(s, es[0], nodeId, c)) + OwnBeats(Step(s, es[0]), es[1..], nodeId, c)
  }

  function Replay(row: NodeRow, updates: seq<Update>): NodeRow
    decreases |updates|
  {
    if updates == [] then row else Replay(Touched(row, updates[0].activate, updates[0].at), updates[1..])
  }

  lemma CommitUpdatesOwnRow(s: System, q: nat, now: int, i: nat)
    requires Inv(s) && q in s.flights && s.flights[q].phase.Committing? && i < |s.nodes|
    ensures i < |Progress(s, q, now).nodes|
    ensures Progress(s, q, now).nodes[i]
         == Replay(s.nodes[i], AsSeq(OwnBeat(s, Advance(q, now), s.nodes[i].base.nodeId, s.nodes[i].base.commonName)))
  {
    hide Inv, Touched, UpdateOk, EventFor;
    UpdateIsOwn(s, q);
    var u, r := s.writer.value.update, s.flights[q].request;
    assert Progress(s, q, now).nodes == Applied(s.nodes, s.writer.value);
    if u.Some? && r.call == Beat(s.nodes[i].base.nodeId) {
      SameIdSameRow(s, i, u.value.row);
    }
    hide Progress, Find;
  }

  lemma SameIdSameRow(s: System, i: nat, j: nat)
    requires Inv(s) && i < |s.nodes| && j < |s.nodes| && s.nodes[i].base.nodeId == s.nodes[j].base.nodeId
    ensures i == j
  {
    hide FlightsOk, WriterOk, AuthorsOk, CounterOk;
  }

  /** A flushed update is for the row its request names, and owns. */
  lemma UpdateIsOwn(s: System, q: nat)
    requires Inv(s) && q in s.flights && s.flights[q].phase.Committing?
    ensures Owns(s, q)
    ensures var u, r := s.writer.value.update, s.flights[q].request;
      u.Some? ==>
        && u.value.row < |s.nodes| && r.call == Beat(s.nodes[u.value.row].base.nodeId)
        && IsBy(r, s.nodes[u.value.row].base.commonName)
  {
    assert FlightOk(s, q, s.flights[q]);
    hide Authenticate, EventFor, TablesOk, FlightsOk, AuthorsOk, CounterOk, InsertOk;
    assert UpdateOk(s.nodes, s.flights[q].request, s.flights[q].phase.reply, s.writer.value.update);
  }

  lemma StepUpdatesOwnRow(s: System, e: Event, i: nat)
    requires Inv(s) && i < |s.nodes|
    ensures i < |Step(s, e).nodes|
    ensures Step(s, e).nodes[i]
         == Replay(s.nodes[i], AsSeq(OwnBeat(s, e, s.nodes[i].base.nodeId, s.nodes[i].base.commonName)))
  {
    hide Inv, Progress, Abandon, Touched;
    if e.Advance? && e.q in s.flights {
      if s.flights[e.q].phase.Committing? {
        hide Replay;
        CommitUpdatesOwnRow(s, e.q, e.now, i);
      } else {
        ProgressKeepsTables(s, e.q, e.now);
      }
    } else if e.Fail? && e.q in s.flights {
      AbandonKeepsNodes(s, e.q);
    }
  }

  lemma AbandonKeepsNodes(s: System, q: nat)
    requires q in s.flights
    ensures Abandon(s, q).nodes == s.nodes
  {
    hide Uncommitted;
  }

  /** Any step that changes an existing row is a heartbeat's commit: it names the
      row's node and shows a certificate with the row's common name. */
  lemma OthersNeverAlterARow(s: System, e: Event, i: nat)
    requires Inv(s) && i < |s.nodes|
    ensures i < |Step(s, e).nodes|
    ensures Step(s, e).nodes[i] != s.nodes[i] ==>
      && e.Advance? && e.q in s.flights
      && IsBy(s.flights[e.q].request, s.nodes[i].base.commonName)
      && s.flights[e.q].request.call == Beat(s.nodes[i].base.nodeId)
  {
    hide Inv, Step;
    StepUpdatesOwnRow(s, e, i);
  }

  lemma {:induction false} ReplayOfConcat(row: NodeRow, a: seq<Update>, b: seq<Update>)
    ensures Replay(row, a + b) == Replay(Replay(row, a), b)
    decreases |a|
  {
    if a == [] {
      assert a + b == b;
    } else {
      assert (a + b)[1..] == a[1..] + b;
      ReplayOfConcat(Touched(row, a[0].activate, a[0].at), a[1..], b);
    }
  }

  lemma {:induction false} ReplayKeepsNames(row: NodeRow, updates: seq<Update>)
    ensures Replay(row, updates).base.nodeId == row.base.nodeId
    ensures Replay(row, updates).base.commonName == row.base.commonName
    decreases |updates|
  {
    if updates != [] {
      ReplayKeepsNames(Touched(row, updates[0].activate, updates[0].at), updates[1..]);
    }
  }

  /** Over any run, with every node's and every controller's requests interleaved,
      a row ends as it was with exactly its own node's committed heartbeats
      applied to it, in the order in which they committed. */
  lemma {:induction false} RowIsItsOwnBeats(s: System, es: seq<Event>, i: nat)
    requires Inv(s) && i < |s.nodes|
    ensures i < |Run(s, es).nodes|
    ensures Run(s, es).nodes[i]
         == Replay(s.nodes[i], OwnBeats(s, es, s.nodes[i].base.nodeId, s.nodes[i].base.commonName))
    decreases |es|
  {
    hide Step, Inv, OwnBeat;
    if es != [] {
      var row, t := s.nodes[i], Step(s, es[0]);
      var first := AsSeq(OwnBeat(s, es[0], row.base.nodeId, row.base.commonName));
      StepUpdatesOwnRow(s, es[0], i);
      ReplayKeepsNames(row, first);
      StepKeepsInv(s, es[0]);
      RowIsItsOwnBeats(t, es[1..], i);
      ReplayOfConcat(row, first, OwnBeats(t, es[1..], row.base.nodeId, row.base.commonName));
    }
  }

  // ---------- one request moves at a time ----------

  ghost predicate MovesOne(s: System, t: System, q: nat) {
    && q in s.flights && q in t.flights
    && t.flights == s.flights[q := s.flights[q].(phase := t.flights[q].phase)]
  }

  lemma EnterMovesOne(s: System, q: nat, now: int)
    requires q in s.flights
    ensures MovesOne(s, Enter(s, q, now), q)
  {
    hide Authenticate, Decide, Find, StateChangeEvent, ForeignRegisterEvent, ForeignBeatEvent;
  }

  lemma ReadsMoveOne(s: System, q: nat, now: int)
    requires q in s.flights
    ensures MovesOne(s, ReadIdentity(s, q), q) && MovesOne(s, CheckRevocation(s, q, now), q)
  {
    hide Authenticate, IsRevoked, Actor, RevocationEvent;
  }

  lemma WritesMoveOne(s: System, q: nat, now: int)
    requires q in s.flights
    ensures MovesOne(s, InsertNode(s, q, now), q)
    ensures forall event, update, reply :: MovesOne(s, Record(s, q, event, update, reply), q)
    ensures forall reply :: MovesOne(s, CountEvent(s, q, reply), q)
    ensures forall change, reply :: MovesOne(s, FlushUpdate(s, q, change, reply), q)
  {
    hide Find, RegisterEvent, NewRow, Actor, KindOf;
  }

  lemma CommitMovesOne(s: System, q: nat, reply: Response)
    requires q in s.flights && Owns(s, q)
    ensures MovesOne(s, Commit(s, q, reply), q)
  {
  }

  /** A step of `q` moves `q` and nobody else. */
  lemma ProgressMovesOne(s: System, q: nat, now: int)
    requires q in s.flights
    ensures MovesOne(s, Progress(s, q, now), q)
  {
    assert MovesOne(s, s, q);
    forall phase ensures MovesOne(s, Move(s, q, phase), q) { }
    hide MovesOne, Move, ReadIdentity, CheckRevocation, Enter, InsertNode;
    hide Record, CountEvent, FlushUpdate, Commit, Owns;
    match s.flights[q].phase
    case Received => ReadsMoveOne(s, q, now);
    case Identified => ReadsMoveOne(s, q, now);
    case Admitted => EnterMovesOne(s, q, now);
    case Committing(reply) => if Owns(s, q) { CommitMovesOne(s, q, reply); }
    case _ => WritesMoveOne(s, q, now);
  }

  lemma ProgressKeepsNext(s: System, q: nat, now: int)
    requires q in s.flights
    ensures Progress(s, q, now).next == s.next
  {
    hide Authenticate, Find, IsRevoked, Actor, RevocationEvent, RegisterEvent, NewRow, Decide, Applied;
  }

  // ---------- accountability ----------

  /** An answered request whose reply is audited has exactly one row since the
      start, saying what it did; any other has none, and every row since the
      start is the row of exactly one request. */
  ghost predicate Accountable(s: System) {
    && |s.audit| == s.base + |s.authors|
    && (forall i :: 0 <= i < |s.authors| ==>
          && s.authors[i] in s.flights
          && var f := s.flights[s.authors[i]];
             (f.phase.Closing? || f.phase.Answered?) && f.phase.reply.Audited()
             && IsEventOf(f.request, f.phase.reply, s.audit[s.base + i]))
    && (forall i, j :: 0 <= i < j < |s.authors| ==> s.authors[i] != s.authors[j])
    && (forall q :: q in s.flights && s.flights[q].phase.Answered? ==>
          (q in s.authors <==> s.flights[q].phase.reply.Audited()))
    && (forall q :: q in s.flights && s.flights[q].phase.Answered? ==>
          s.flights[q].phase.response == s.flights[q].phase.reply || s.flights[q].phase.response == Failure)
  }

  lemma AuthorIsAccountable(s: System, i: nat)
    requires Inv(s) && i < |s.authors|
    ensures s.authors[i] in s.flights
    ensures var f := s.flights[s.authors[i]];
      && (f.phase.Closing? || f.phase.Answered?) && f.phase.reply.Audited()
      && |s.audit| == s.base + |s.authors|
      && IsEventOf(f.request, f.phase.reply, s.audit[s.base + i])
  {
    var q := s.authors[i];
    assert LoggedBy(s.flights[q]) == Some(s.base + i);
    assert FlightOk(s, q, s.flights[q]);
  }

  lemma AnsweredIsAccountable(s: System, q: nat)
    requires Inv(s) && q in s.flights && s.flights[q].phase.Answered?
    ensures q in s.authors <==> s.flights[q].phase.reply.Audited()
    ensures s.flights[q].phase.response == s.flights[q].phase.reply || s.flights[q].phase.response == Failure
  {
    assert FlightOk(s, q, s.flights[q]);
    if q in s.authors {
      var i :| 0 <= i < |s.authors| && s.authors[i] == q;
      AuthorIsAccountable(s, i);
    }
  }

  lemma EveryRunIsAccountable(nodes: seq<NodeRow>, audit: seq<AuditRow>, next: nat, es: seq<Event>)
    requires Distinct(nodes) && Ids(nodes) == RegisteredIds(audit)
    ensures Accountable(Run(Start(nodes, audit, next), es))
  {
    var s := Run(Start(nodes, audit, next), es);
    StartIsInv(nodes, audit, next);
    RunKeepsInv(Start(nodes, audit, next), es);
    assert AuthorsOk(s);
    hide Run, Start, FlightsOk, WriterOk, TablesOk, CounterOk, IsEventOf;
    forall i | 0 <= i < |s.authors| { AuthorIsAccountable(s, i); }
    forall q | q in s.flights && s.flights[q].phase.Answered? { AnsweredIsAccountable(s, q); }
  }

  /** A registration answered 201 stays stored as it was sent, except that the
      node may have been activated, in every continuation. */
  lemma CreatedIsDurable(s: System, es: seq<Event>, q: nat)
    requires Inv(s) && q in s.flights && s.flights[q].phase.Answered? && s.flights[q].phase.response == Created
    ensures s.flights[q].request.call.Register?
    ensures Stored(Run(s, es).nodes, s.flights[q].request.call.payload)
  {
    assert FlightOk(s, q, s.flights[q]);
    RowsOnlyActivate(s, es);
    hide Run, Inv;
    StoredStaysStored(s.nodes, Run(s, es).nodes, s.flights[q].request.call.payload);
  }

  /** A registration that loses the race for an id meets the unique constraint: it
      ends as an unhandled error, with nothing stored, logged or counted. */
  lemma RaceLoserLeavesNothing(s: System, q: nat, now: int)
    requires q in s.flights && s.flights[q].phase.Inserting? && s.writer.None?
    requires s.flights[q].request.call.Register?
    requires exists i :: 0 <= i < |s.nodes| && s.nodes[i].base.nodeId == s.flights[q].request.call.payload.nodeId
    ensures var t := Step(s, Advance(q, now));
      && q in t.flights && t.flights[q].phase.Answered? && t.flights[q].phase.response.Status() == 500
      && t.nodes == s.nodes && t.audit == s.audit && t.counter == s.counter && t.writer.None?
  {
    assert Find(s.nodes, s.flights[q].request.call.payload.nodeId).Some?;
    hide Find;
  }

  // ---------- each request counts its event once ----------

  /** Whether this event bumps `audit_events_total` on behalf of `q`. */
  predicate Bumps(s: System, e: Event, q: nat) {
    e.Advance? && e.q == q && Step(s, e).counter != s.counter
  }

  function BumpCount(s: System, es: seq<Event>, q: nat): nat
    decreases |es|
  {
    if es == [] then 0 else (if Bumps(s, es[0], q) then 1 else 0) + BumpCount(Step(s, es[0]), es[1..], q)
  }

  /** The bumps a request has behind it when it waits here. */
  function Counted(phase: Phase): nat {
    match phase
    case Committing(reply) => if reply.Audited() then 1 else 0
    case Closing(reply, _) => if reply.Audited() then 1 else 0
    case Answered(_, reply, _) => if reply.Audited() then 1 else 0
    case _ => 0
  }

  predicate GaveUp(phase: Phase) {
    phase.Answered? && phase.reply == Failure
  }

  lemma ArriveBump(s: System, r: Request, q: nat)
    requires Inv(s) && q in s.flights
    ensures q in Step(s, Arrive(r)).flights && Step(s, Arrive(r)).flights[q] == s.flights[q]
  {
    hide FlightOk, WriterOk, CounterOk, AuthorsOk, TablesOk;
  }

  lemma AbandonBump(s: System, k: nat, q: nat)
    requires k in s.flights && q in s.flights
    ensures q in Abandon(s, k).flights
    ensures var after := Abandon(s, k).flights[q].phase;
      GaveUp(after) || Counted(after) == Counted(s.flights[q].phase)
    ensures GaveUp(s.flights[q].phase) ==> GaveUp(Abandon(s, k).flights[q].phase)
  {
    hide Uncommitted;
  }

  lemma BumpStep(s: System, e: Event, q: nat)
    requires Inv(s) && q in s.flights && !e.Restart?
    ensures q in Step(s, e).flights
    ensures !GaveUp(Step(s, e).flights[q].phase) ==>
              Counted(Step(s, e).flights[q].phase) == Counted(s.flights[q].phase) + if Bumps(s, e, q) then 1 else 0
    ensures GaveUp(s.flights[q].phase) ==> GaveUp(Step(s, e).flights[q].phase)
  {
    hide Progress, Inv, Counted, GaveUp, Abandon;
    match e
    case Advance(k, now) =>
      if k == q {
        OwnBumpStep(s, q, now);
      } else if k in s.flights {
        ProgressMovesOne(s, k, now);
      }
    case Fail(k) => if k in s.flights { AbandonBump(s, k, q); }
    case Arrive(r) => hide Step; ArriveBump(s, r, q);
    case Install(_) =>
  }

  ghost predicate BumpOk(s: System, t: System, q: nat) {
    && q in s.flights && q in t.flights
    && Counted(t.flights[q].phase) == Counted(s.flights[q].phase) + (if t.counter != s.counter then 1 else 0)
    && (GaveUp(s.flights[q].phase) ==> GaveUp(t.flights[q].phase))
  }

  lemma ReadBump(s: System, q: nat, now: int)
    requires q in s.flights && Counted(s.flights[q].phase) == 0 && !s.flights[q].phase.Answered?
    ensures BumpOk(s, ReadIdentity(s, q), q) && BumpOk(s, CheckRevocation(s, q, now), q)
  {
    hide Authenticate, IsRevoked, Actor, RevocationEvent;
  }

  lemma InsertBump(s: System, q: nat, now: int)
    requires q in s.flights && Counted(s.flights[q].phase) == 0 && !s.flights[q].phase.Answered?
    ensures BumpOk(s, InsertNode(s, q, now), q)
  {
    hide Actor, Find, RegisterEvent, NewRow;
  }

  lemma EnterBump(s: System, q: nat, now: int)
    requires q in s.flights && s.flights[q].phase == Admitted
    ensures BumpOk(s, Enter(s, q, now), q)
  {
    hide Authenticate, Find, StateChangeEvent, ForeignRegisterEvent, ForeignBeatEvent, Actor;
  }

  lemma RecordBump(s: System, q: nat, event: AuditRow, update: Option<Update>, reply: Response)
    requires q in s.flights && s.flights[q].phase.Recording?
    ensures BumpOk(s, Record(s, q, event, update, reply), q)
  {
  }

  lemma CountingBump(s: System, q: nat, now: int)
    requires Inv(s) && q in s.flights && s.flights[q].phase.Counting?
    ensures BumpOk(s, Progress(s, q, now), q)
  {
    assert FlightOk(s, q, s.flights[q]);
    assert |Progress(s, q, now).counter| == |s.counter| + 1;
  }

  lemma UpdatingBump(s: System, q: nat, now: int)
    requires Inv(s) && q in s.flights && s.flights[q].phase.Updating?
    ensures BumpOk(s, Progress(s, q, now), q)
  {
    assert FlightOk(s, q, s.flights[q]);
  }

  lemma ClosingBump(s: System, q: nat, now: int)
    requires q in s.flights
    requires s.flights[q].phase.Committing? || s.flights[q].phase.Closing? || s.flights[q].phase.Answered?
    ensures BumpOk(s, Progress(s, q, now), q)
  {
    hide Applied;
  }

  lemma OwnBumpStep(s: System, q: nat, now: int)
    requires Inv(s) && q in s.flights
    ensures BumpOk(s, Progress(s, q, now), q)
  {
    hide Inv, BumpOk, ReadIdentity, CheckRevocation, Enter, InsertNode, Record, CountEvent, FlushUpdate, Commit;
    match s.flights[q].phase
    case Received => ReadBump(s, q, now);
    case Identified => ReadBump(s, q, now);
    case Admitted => EnterBump(s, q, now);
    case Inserting => InsertBump(s, q, now);
    case Recording(event, update, reply) => RecordBump(s, q, event, update, reply);
    case Counting(_) => CountingBump(s, q, now);
    case Updating(_, _) => UpdatingBump(s, q, now);
    case _ => ClosingBump(s, q, now);
  }

  /** Over any run without a restart a request that was not abandoned counts one
      event if its reply is audited and none otherwise: a registration that loses
      the race, a duplicate or an unknown node bumps nothing. */
  lemma {:induction false} EachRequestCountsOnce(s: System, es: seq<Event>, q: nat)
    requires Inv(s) && q in s.flights
    requires forall i :: 0 <= i < |es| ==> !es[i].Restart?
    ensures q in Run(s, es).flights
    ensures GaveUp(s.flights[q].phase) ==> GaveUp(Run(s, es).flights[q].phase)
    ensures !GaveUp(Run(s, es).flights[q].phase) ==>
              BumpCount(s, es, q) + Counted(s.flights[q].phase) == Counted(Run(s, es).flights[q].phase)
    decreases |es|
  {
    hide Step, Inv, Bumps, Counted;
    if es != [] {
      BumpStep(s, es[0], q);
      StepKeepsInv(s, es[0]);
      EachRequestCountsOnce(Step(s, es[0]), es[1..], q);
    }
  }

  predicate IsPastCounting(phase: Phase) {
    phase.Committing? || phase.Closing? || phase.Answered?
  }

  /** The bumps a request can still make: none once its event is counted. */
  function Budget(s: System, q: nat): (n: nat)
    ensures n <= 1
  {
    if q in s.flights then if IsPastCounting(s.flights[q].phase) then 0 else 1
    else if q < s.next then 0 else 1
  }

  lemma PastCountingStays(s: System, q: nat, now: int)
    requires q in s.flights && IsPastCounting(s.flights[q].phase)
    ensures var t := Progress(s, q, now);
      q in t.flights && IsPastCounting(t.flights[q].phase) && t.counter == s.counter
  {
    hide Applied;
  }

  lemma CountedIsPast(phase: Phase)
    requires Counted(phase) > 0
    ensures IsPastCounting(phase)
  {
  }

  lemma AdvanceBudget(s: System, k: nat, now: int, q: nat)
    requires Inv(s) && k in s.flights
    ensures var t := Progress(s, k, now);
      Budget(t, q) + (if k == q && t.counter != s.counter then 1 else 0) <= Budget(s, q)
  {
    hide Inv, Progress, Counted, IsPastCounting;
    ProgressMovesOne(s, k, now);
    ProgressKeepsNext(s, k, now);
    if k == q {
      if IsPastCounting(s.flights[q].phase) {
        PastCountingStays(s, q, now);
      } else {
        OwnBumpStep(s, q, now);
        if Progress(s, q, now).counter != s.counter { CountedIsPast(Progress(s, q, now).flights[q].phase); }
      }
    }
  }

  lemma FailBudget(s: System, k: nat, q: nat)
    requires k in s.flights
    ensures Budget(Abandon(s, k), q) <= Budget(s, q)
  {
    hide Uncommitted;
  }

  lemma ArriveBudget(s: System, r: Request, q: nat)
    requires s.next !in s.flights
    ensures Budget(Step(s, Arrive(r)), q) <= Budget(s, q)
  {
    hide IsPastCounting;
  }

  lemma BudgetStep(s: System, e: Event, q: nat)
    requires Inv(s)
    ensures Budget(Step(s, e), q) + (if Bumps(s, e, q) then 1 else 0) <= Budget(s, q)
  {
    assert forall k :: k in s.flights ==> k < s.next by { hide FlightOk, TablesOk, WriterOk, AuthorsOk, CounterOk; }
    hide Inv, Progress, Abandon, IsPastCounting;
    match e
    case Arrive(r) => ArriveBudget(s, r, q);
    case Advance(k, now) => if k in s.flights { AdvanceBudget(s, k, now, q); }
    case Fail(k) => if k in s.flights { FailBudget(s, k, q); }
    case _ =>
  }

  /** Abandoned or not, and across restarts, no request ever counts twice. */
  lemma {:induction false} NoRequestCountsTwice(s: System, es: seq<Event>, q: nat)
    requires Inv(s)
    ensures BumpCount(s, es, q) <= Budget(s, q) <= 1
    decreases |es|
  {
    hide Step, Inv, Bumps, Budget;
    if es != [] {
      BudgetStep(s, es[0], q);
      StepKeepsInv(s, es[0]);
      NoRequestCountsTwice(Step(s, es[0]), es[1..], q);
    }
  }

  lemma OwnerCounted(s: System, q: nat)
    requires Inv(s) && q in s.flights
    ensures s.flights[q].phase.Committing? ==> Owns(s, q)
    ensures Owns(s, q) ==>
      && var phase := s.flights[q].phase;
      && !phase.Answered? && !phase.Closing?
      && if phase.Committing? && phase.reply.Audited()
         then s.writer.value.event.Some? && Uncommitted(s) == multiset{KindOf(s.writer.value.event.value)}
         else Uncommitted(s) == multiset{}
  {
    assert FlightOk(s, q, s.flights[q]);
    hide TablesOk, FlightsOk, AuthorsOk, CounterOk, IsEventOf, InsertOk, UpdateOk, ReplyOk;
  }

  /** What an abandoned request loses: its client hears a failure, and what it had
      not committed is rolled back. A counted row is lost exactly when the failure
      hits between counting and committing; it is remembered as lost, and the
      counter keeps it. */
  lemma AbandonedCountIsLost(s: System, q: nat)
    requires Inv(s) && q in s.flights
    ensures var t, phase, w := Step(s, Fail(q)), s.flights[q].phase, s.writer;
      && t.counter == s.counter && t.nodes == s.nodes && t.audit == s.audit
      && q in t.flights && t.flights[q].phase.Answered?
      && (if phase.Answered? then t == s
          else if phase.Closing? then t.flights[q].phase == Answered(Failure, phase.reply, phase.logged)
          else GaveUp(t.flights[q].phase) && t.flights[q].phase.response == Failure && !Owns(t, q))
      && if phase.Committing? && phase.reply.Audited()
         then Owns(s, q) && w.value.event.Some? && t.lost == s.lost + multiset{KindOf(w.value.event.value)}
         else t.lost == s.lost
  {
    OwnerCounted(s, q);
    hide Inv, Uncommitted;
  }
}
