/** What the audit log and its counter say about the requests served, field by
    field (controller/app/core/audit.py, controller/app/api/nodes.py,
    controller/app/core/security.py). */
module Ledger {
  import opened Wrappers
  import opened Tables
  import opened Security
  import opened Requests
  import opened Controller
  import opened Traces
  import opened Admission
  import Interleaving
  import Invariants
  import Safety

  // ---------- one row ----------

  /** The responses that leave a row. */
  predicate Leaves(response: Response) {
    match response
    case RevokedCert => true
    case ForeignRegister => true
    case ForeignBeat => true
    case Created => true
    case Activated => true
    case _ => false
  }

  predicate IsRefusal(row: AuditRow) {
    row.action == AuthFailure && row.result == Rejected
  }

  /** The row is the record of a request that got this response. */
  ghost predicate Records(row: AuditRow, r: Request, response: Response) {
    && Shows(r.headers, row.actorCn)
    && match response
       case RevokedCert =>
         && IsRefusal(row)
         && exists n: nat :: ShowsSerial(r.headers, n)
              && row.target == CertTarget(PrintIn(LOWER, n)) && row.details == CertificateRevoked(PrintIn(LOWER, n))
       case ForeignRegister =>
         && r.call.Register? && IsRefusal(row)
         && row.target == NodeTarget(r.call.payload.nodeId) && row.details == MayNotRegister
       case ForeignBeat =>
         && r.call.Beat? && IsRefusal(row)
         && row.target == NodeTarget(r.call.nodeId) && row.details == MayNotBeatFor(r.call.nodeId)
       case Created =>
         && r.call.Register? && row.action == NodeRegister && row.result == Success
         && row.target == NodeTarget(r.call.payload.nodeId)
         && row.details == RegisteredAs(r.call.payload.role, r.call.payload.ipAddress)
       case Activated =>
         && r.call.Beat? && row.action == NodeStateChange && row.result == Success
         && row.target == NodeTarget(r.call.nodeId) && row.details == Moved(Onboarding, Active)
       case _ => false
  }

  lemma EventRecords(h: Headers, call: Call, response: Response, now: int)
    requires Authenticate(h).Known? && EventFor(Authenticate(h).id, call, response, now).Some?
    ensures Records(EventFor(Authenticate(h).id, call, response, now).value, Request(h, call), response)
    ensures EventFor(Authenticate(h).id, call, response, now).value.timestamp == now
  {
    var id := Authenticate(h).id;
    AuthenticatesByHeaders(h);
    assert Shows(h, id.commonName);
    if response.RevokedCert? {
      PrintsLowerCase(id.serial.value);
      SerialByHeader(h, id.serial.value);
    }
    hide Authenticate, Shows, LacksHeader, IsUnverified, IsNameless, PrintHex, PrintIn, ShowsSerial;
  }

  lemma DecisionFits(nodes: seq<NodeRow>, id: Identity, call: Call, now: int)
    ensures EventFor(id, call, Decide(nodes, id, call), now).Some? <==> Leaves(Decide(nodes, id, call))
  {
    hide Find, MayRegister;
  }

  // ---------- a serial run ----------

  /** The log gained is one row for each request whose response leaves one, in
      order, and nothing else. */
  ghost predicate Tells(s: Store, es: seq<Event>, rows: seq<AuditRow>)
    decreases |es|
  {
    if es == [] then rows == []
    else if es[0].Incoming? && Leaves(Respond(s, es[0].request)) then
      && rows != [] && Records(rows[0], es[0].request, Respond(s, es[0].request)) && rows[0].timestamp == es[0].now
      && Tells(Step(s, es[0]), es[1..], rows[1..])
    else Tells(Step(s, es[0]), es[1..], rows)
  }

  /** One event's share of the log. */
  ghost predicate TellsOne(s: Store, e: Event, entry: seq<AuditRow>) {
    if e.Incoming? && Leaves(Respond(s, e.request))
    then |entry| == 1 && Records(entry[0], e.request, Respond(s, e.request)) && entry[0].timestamp == e.now
    else entry == []
  }

  lemma ServeTellsOne(s: Store, r: Request, now: int) returns (entry: seq<AuditRow>)
    ensures Serve(s, r, now).audit == s.audit + entry && TellsOne(s, Incoming(r, now), entry)
    ensures Serve(s, r, now).counter == s.counter + Kinds(entry)
  {
    entry := AsSeq(Controller.Entry(r, Respond(s, r), now));
    hide Records, Kinds;
    match Authenticate(r.headers)
    case Refused(why) =>
    case Known(id) =>
      if IsRevoked(id, s.revoked) {
        EventRecords(r.headers, r.call, RevokedCert, now);
      } else {
        DecisionFits(s.nodes, id, r.call, now);
        if Leaves(Decide(s.nodes, id, r.call)) {
          EventRecords(r.headers, r.call, Decide(s.nodes, id, r.call), now);
        }
        hide Decide, EventFor;
      }
  }

  lemma StepTellsOne(s: Store, e: Event) returns (entry: seq<AuditRow>)
    ensures Step(s, e).audit == s.audit + entry && TellsOne(s, e, entry)
    ensures !e.Restart? ==> Step(s, e).counter == s.counter + Kinds(entry)
  {
    hide Serve, Records;
    if e.Incoming? {
      entry := ServeTellsOne(s, e.request, e.now);
    } else {
      entry := [];
      assert s.audit + [] == s.audit;
    }
  }

  /** The audit log of every serial run, row by row. */
  lemma {:induction false} RunTells(s: Store, es: seq<Event>)
    ensures s.audit <= Run(s, es).audit && Tells(s, es, Run(s, es).audit[|s.audit|..])
    decreases |es|
  {
    hide Step, Respond, Records, Leaves;
    if es != [] {
      var t := Step(s, es[0]);
      var entry := StepTellsOne(s, es[0]);
      RunTells(t, es[1..]);
      var gained, rest := Run(s, es).audit[|s.audit|..], Run(t, es[1..]).audit[|t.audit|..];
      assert gained == entry + rest;
      assert entry != [] ==> gained[0] == entry[0] && gained[1..] == rest;
    }
  }

  // ---------- the totals ----------

  datatype Totals = Totals(refusals: nat, creations: nat, activations: nat)

  /** The answers of a run, by what they are recorded as. */
  function Tally(s: Store, es: seq<Event>): Totals
    decreases |es|
  {
    if es == [] then Totals(0, 0, 0)
    else
      var rest := Tally(Step(s, es[0]), es[1..]);
      if !es[0].Incoming? then rest
      else
        match Respond(s, es[0].request)
        case RevokedCert => rest.(refusals := rest.refusals + 1)
        case ForeignRegister => rest.(refusals := rest.refusals + 1)
        case ForeignBeat => rest.(refusals := rest.refusals + 1)
        case Created => rest.(creations := rest.creations + 1)
        case Activated => rest.(activations := rest.activations + 1)
        case _ => rest
  }

  /** The rows with these labels. */
  function CountRows(rows: seq<AuditRow>, action: AuditAction, result: AuditResult): nat
    decreases |rows|
  {
    if rows == [] then 0
    else (if rows[0].action == action && rows[0].result == result then 1 else 0) + CountRows(rows[1..], action, result)
  }

  /** The totals the labels of a log have to show, and no others. */
  ghost predicate Shown(rows: seq<AuditRow>, totals: Totals) {
    && CountRows(rows, AuthFailure, Rejected) == totals.refusals
    && CountRows(rows, NodeRegister, Success) == totals.creations
    && CountRows(rows, NodeStateChange, Success) == totals.activations
    && forall action, result ::
         (action, result) !in {(AuthFailure, Rejected), (NodeRegister, Success), (NodeStateChange, Success)} ==>
           CountRows(rows, action, result) == 0
  }

  lemma {:induction false} TellsTotals(s: Store, es: seq<Event>, rows: seq<AuditRow>)
    requires Tells(s, es, rows)
    ensures Shown(rows, Tally(s, es))
    decreases |es|
  {
    hide Step, Respond, Shows, ShowsSerial;
    if es != [] {
      if es[0].Incoming? && Leaves(Respond(s, es[0].request)) {
        TellsTotals(Step(s, es[0]), es[1..], rows[1..]);
      } else {
        TellsTotals(Step(s, es[0]), es[1..], rows);
      }
    }
  }

  /** Over every serial run the log gains as many refusals, registrations and
      activations as there were such answers, and no row of any other kind. */
  lemma LogShowsTheAnswers(s: Store, es: seq<Event>)
    ensures s.audit <= Run(s, es).audit && Shown(Run(s, es).audit[|s.audit|..], Tally(s, es))
  {
    RunTells(s, es);
    hide Run, Tells, Shown;
    TellsTotals(s, es, Run(s, es).audit[|s.audit|..]);
  }

  // ---------- the counter ----------

  lemma {:induction false} CountRowsOfConcat(
      a: seq<AuditRow>, b: seq<AuditRow>, action: AuditAction, result: AuditResult)
    ensures CountRows(a + b, action, result) == CountRows(a, action, result) + CountRows(b, action, result)
    decreases |a|
  {
    if a == [] {
      assert a + b == b;
    } else {
      assert (a + b)[1..] == a[1..] + b;
      CountRowsOfConcat(a[1..], b, action, result);
    }
  }

  /** Each label of the counter counts the rows that bear it. */
  lemma {:induction false} CounterCountsRows(rows: seq<AuditRow>, action: AuditAction, result: AuditResult)
    ensures Kinds(rows)[Kind(action, result)] == CountRows(rows, action, result)
    decreases |rows|
  {
    if rows != [] {
      var front, last := rows[..|rows| - 1], rows[|rows| - 1];
      CounterCountsRows(front, action, result);
      assert rows == front + [last];
      CountRowsOfConcat(front, [last], action, result);
      assert [last][1..] == [];
    }
  }

  lemma {:induction false} CounterFollowsLog(s: Store, es: seq<Event>, action: AuditAction, result: AuditResult)
    requires forall i :: 0 <= i < |es| ==> !es[i].Restart?
    ensures s.audit <= Run(s, es).audit
    ensures Run(s, es).counter[Kind(action, result)]
         == s.counter[Kind(action, result)] + CountRows(Run(s, es).audit[|s.audit|..], action, result)
    decreases |es|
  {
    hide Step, Respond, Records, Leaves, Kinds, CountRows;
    if es == [] {
      assert s.audit[|s.audit|..] == [];
      CounterCountsRows([], action, result);
      NoKinds();
    } else {
      var t := Step(s, es[0]);
      var entry := StepTellsOne(s, es[0]);
      CounterFollowsLog(t, es[1..], action, result);
      CounterCountsRows(entry, action, result);
      var rest := Run(t, es[1..]).audit[|t.audit|..];
      assert Run(s, es).audit[|s.audit|..] == entry + rest;
      CountRowsOfConcat(entry, rest, action, result);
    }
  }

  lemma NoKinds()
    ensures Kinds([]) == multiset{}
  {
  }

  /** Without a restart the event counter shows the same totals. */
  lemma CounterShowsTheAnswers(s: Store, es: seq<Event>)
    requires s.counter == multiset{} && forall i :: 0 <= i < |es| ==> !es[i].Restart?
    ensures var t, totals := Run(s, es), Tally(s, es);
      && t.counter[Kind(AuthFailure, Rejected)] == totals.refusals
      && t.counter[Kind(NodeRegister, Success)] == totals.creations
      && t.counter[Kind(NodeStateChange, Success)] == totals.activations
      && forall action, result ::
           (action, result) !in {(AuthFailure, Rejected), (NodeRegister, Success), (NodeStateChange, Success)} ==>
             t.counter[Kind(action, result)] == 0
  {
    LogShowsTheAnswers(s, es);
    forall action, result
      ensures Run(s, es).counter[Kind(action, result)] == CountRows(Run(s, es).audit[|s.audit|..], action, result)
    {
      CounterFollowsLog(s, es, action, result);
    }
    hide Run, CountRows, Tally;
  }

  /** The registered ids are the node targets of the NODE_REGISTER/SUCCESS rows,
      one for each. */
  lemma {:induction false} RegisteredIdsAreTargets(rows: seq<AuditRow>)
    requires forall i :: 0 <= i < |rows| && rows[i].action == NodeRegister && rows[i].result == Success ==>
               rows[i].target.NodeTarget?
    ensures |RegisteredIds(rows)| == CountRows(rows, NodeRegister, Success)
    ensures forall id :: id in RegisteredIds(rows) <==>
              exists i :: 0 <= i < |rows| && rows[i].action == NodeRegister && rows[i].result == Success
                     && rows[i].target == NodeTarget(id)
    decreases |rows|
  {
    if rows != [] {
      var front, last := rows[..|rows| - 1], rows[|rows| - 1];
      RegisteredIdsAreTargets(front);
      assert rows == front + [last];
      CountRowsOfConcat(front, [last], NodeRegister, Success);
      assert [last][1..] == [];
    }
  }

  // ---------- requests in flight ----------

  lemma EventOfRecords(r: Request, reply: Response, event: AuditRow)
    requires Invariants.IsEventOf(r, reply, event)
    ensures Records(event, r, reply) && Leaves(reply)
  {
    EventRecords(r.headers, r.call, reply, event.timestamp);
    hide Authenticate, Records;
  }

  lemma AuditedLeaves(response: Response)
    ensures response.Audited() <==> Leaves(response)
  {
  }

  /** In every interleaving the rows since the start are, field by field, the
      records of the requests that wrote them, one each, and a finished request has
      one exactly when its reply leaves one. */
  lemma EveryRowRecordsItsRequest(nodes: seq<NodeRow>, audit: seq<AuditRow>, next: nat, es: seq<Interleaving.Event>)
    requires Distinct(nodes) && Ids(nodes) == RegisteredIds(audit)
    ensures var t := Interleaving.Run(Interleaving.Start(nodes, audit, next), es);
      && |t.audit| == t.base + |t.authors|
      && (forall i :: 0 <= i < |t.authors| ==>
            && t.authors[i] in t.flights
            && var f := t.flights[t.authors[i]];
               (f.phase.Closing? || f.phase.Answered?) && Records(t.audit[t.base + i], f.request, f.phase.reply))
      && (forall i, j :: 0 <= i < j < |t.authors| ==> t.authors[i] != t.authors[j])
      && (forall q :: q in t.flights && t.flights[q].phase.Answered? ==>
            (q in t.authors <==> Leaves(t.flights[q].phase.reply)))
  {
    Safety.EveryRunIsAccountable(nodes, audit, next, es);
    var t := Interleaving.Run(Interleaving.Start(nodes, audit, next), es);
    hide Interleaving.Run, Interleaving.Start, Records, Invariants.IsEventOf;
    forall i | 0 <= i < |t.authors|
      ensures Records(t.audit[t.base + i], t.flights[t.authors[i]].request, t.flights[t.authors[i]].phase.reply)
    {
      var f := t.flights[t.authors[i]];
      EventOfRecords(f.request, f.phase.reply, t.audit[t.base + i]);
    }
    forall q | q in t.flights && t.flights[q].phase.Answered?
      ensures q in t.authors <==> Leaves(t.flights[q].phase.reply)
    {
      AuditedLeaves(t.flights[q].phase.reply);
    }
  }
}
