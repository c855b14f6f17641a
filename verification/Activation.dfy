/** When a node's activation is logged exactly once. */
module Activation {
  import opened Wrappers
  import opened Tables
  import opened Security
  import opened Requests
  import opened Interleaving
  import opened Invariants
  import opened Safety

  function Activations(rows: seq<AuditRow>, nodeId: string): nat {
    if rows == [] then 0
    else Activations(rows[..|rows| - 1], nodeId) + if IsActivation(rows[|rows| - 1], nodeId) then 1 else 0
  }

  predicate IsOnboarding(nodes: seq<NodeRow>, nodeId: string) {
    match Find(nodes, nodeId)
    case None => false
    case Some(i) => nodes[i].base.state == Onboarding
  }

  /** The activations still to come, if there is one per onboarding node. */
  function Ahead(nodes: seq<NodeRow>, nodeId: string): nat {
    if IsOnboarding(nodes, nodeId) then 1 else 0
  }

  predicate Activating(phase: Phase) {
    match phase
    case Recording(_, _, reply) => reply == Activated
    case Counting(reply) => reply == Activated
    case Committing(reply) => reply == Activated
    case _ => false
  }

  /** The heartbeats that have read the node as onboarding and not committed yet. */
  function Pending(s: System, nodeId: string): set<nat> {
    set q | q in s.flights && s.flights[q].request.call == Beat(nodeId) && Activating(s.flights[q].phase)
  }

  /** No two heartbeats for the node are pending together. */
  ghost predicate Alone(s: System, nodeId: string) {
    forall a, b :: a in Pending(s, nodeId) && b in Pending(s, nodeId) ==> a == b
  }

  ghost predicate NeverPaired(s: System, es: seq<Event>, nodeId: string)
    decreases |es|
  {
    Alone(s, nodeId) && (es != [] ==> NeverPaired(Step(s, es[0]), es[1..], nodeId))
  }

  /** A pending heartbeat still finds its node onboarding. */
  ghost predicate Current(s: System, nodeId: string) {
    Pending(s, nodeId) != {} ==> IsOnboarding(s.nodes, nodeId)
  }

  ghost predicate Fine(s: System, nodeId: string) {
    Inv(s) && Find(s.nodes, nodeId).Some? && Current(s, nodeId) && Alone(s, nodeId)
  }

  lemma ActivationsOfAppend(rows: seq<AuditRow>, row: AuditRow, nodeId: string)
    ensures Activations(rows + [row], nodeId) == Activations(rows, nodeId) + if IsActivation(row, nodeId) then 1 else 0
  {
    assert (rows + [row])[..|rows|] == rows;
  }

  // ---------- a commit ----------

  lemma PendingCommitLogsOne(s: System, q: nat, nodeId: string)
    requires Inv(s) && q in s.flights && s.flights[q].phase == Committing(Activated)
    requires s.flights[q].request.call == Beat(nodeId)
    ensures Activations(Progress(s, q, 0).audit, nodeId) == Activations(s.audit, nodeId) + 1
  {
    assert FlightOk(s, q, s.flights[q]);
    hide Activations, Applied, TablesOk, FlightsOk, AuthorsOk, CounterOk;
    var w := s.writer.value;
    ActivationsOfAppend(s.audit, w.event.value, nodeId);
    assert IsActivation(w.event.value, nodeId);
  }

  /** The commit of a pending heartbeat logs one activation and leaves the node
      active, whether or not another was there before it. */
  lemma ActivatingCommit(s: System, q: nat, nodeId: string)
    requires Inv(s) && Find(s.nodes, nodeId).Some?
    requires q in s.flights && s.flights[q].phase == Committing(Activated)
    requires s.flights[q].request.call == Beat(nodeId)
    ensures var t := Progress(s, q, 0);
      && Activations(t.audit, nodeId) == Activations(s.audit, nodeId) + 1
      && !IsOnboarding(t.nodes, nodeId)
  {
    assert FlightOk(s, q, s.flights[q]);
    var w, t := s.writer.value, Progress(s, q, 0);
    var i := Find(s.nodes, nodeId).value;
    FindTheRow(s.nodes, w.update.value.row);
    assert w.update.value.row == i;
    PendingCommitLogsOne(s, q, nodeId);
    hide Activations, EventFor;
    CommitKeepsTables(s, q);
    assert t.nodes[i].base.nodeId == nodeId && t.nodes[i].base.state == Active;
    FindTheRow(t.nodes, i);
  }

  lemma OtherCommitLogsNone(s: System, q: nat, nodeId: string)
    requires Inv(s) && q in s.flights && s.flights[q].phase.Committing?
    requires !(s.flights[q].phase.reply == Activated && s.flights[q].request.call == Beat(nodeId))
    ensures Activations(Progress(s, q, 0).audit, nodeId) == Activations(s.audit, nodeId)
  {
    assert FlightOk(s, q, s.flights[q]);
    hide Activations, Applied, TablesOk, FlightsOk, AuthorsOk, CounterOk;
    var w := s.writer.value;
    if w.event.Some? {
      ActivationsOfAppend(s.audit, w.event.value, nodeId);
      assert !IsActivation(w.event.value, nodeId);
    } else {
      assert Progress(s, q, 0).audit == s.audit;
    }
  }

  lemma OtherCommitKeepsState(s: System, q: nat, nodeId: string)
    requires Inv(s) && Find(s.nodes, nodeId).Some? && q in s.flights && s.flights[q].phase.Committing?
    requires !(s.flights[q].phase.reply == Activated && s.flights[q].request.call == Beat(nodeId))
    ensures IsOnboarding(Progress(s, q, 0).nodes, nodeId) == IsOnboarding(s.nodes, nodeId)
  {
    assert FlightOk(s, q, s.flights[q]);
    var t, i := Progress(s, q, 0), Find(s.nodes, nodeId).value;
    hide EventFor, FlightsOk, AuthorsOk, CounterOk;
    CommitKeepsTables(s, q);
    assert t.nodes[i].base.nodeId == nodeId && t.nodes[i].base.state == s.nodes[i].base.state;
    FindTheRow(t.nodes, i);
  }

  // ---------- all steps ----------

  lemma EnterActivates(s: System, q: nat, now: int)
    requires q in s.flights && q in Enter(s, q, now).flights && Activating(Enter(s, q, now).flights[q].phase)
    ensures s.flights[q].request.call.Beat? && IsOnboarding(s.nodes, s.flights[q].request.call.nodeId)
  {
    hide Authenticate, Find, StateChangeEvent, ForeignRegisterEvent, ForeignBeatEvent, Actor;
  }

  lemma ReadsDoNotActivate(s: System, q: nat, now: int)
    requires q in s.flights && !Activating(s.flights[q].phase)
    ensures q in ReadIdentity(s, q).flights && !Activating(ReadIdentity(s, q).flights[q].phase)
    ensures q in CheckRevocation(s, q, now).flights && !Activating(CheckRevocation(s, q, now).flights[q].phase)
    ensures q in InsertNode(s, q, now).flights && !Activating(InsertNode(s, q, now).flights[q].phase)
  {
    hide Authenticate, Find, IsRevoked, Actor, RevocationEvent, RegisterEvent, NewRow;
  }

  lemma WritesDoNotActivate(s: System, q: nat, now: int)
    requires q in s.flights && !Activating(s.flights[q].phase)
    requires s.flights[q].phase.Recording? || s.flights[q].phase.Counting? || s.flights[q].phase.Committing?
    ensures q in Progress(s, q, now).flights && !Activating(Progress(s, q, now).flights[q].phase)
  {
    hide Enter, InsertNode, ReadIdentity, CheckRevocation, Applied;
  }

  lemma UpdatesDoNotActivate(s: System, q: nat, now: int)
    requires Inv(s) && q in s.flights && s.flights[q].phase.Updating?
    ensures q in Progress(s, q, now).flights && !Activating(Progress(s, q, now).flights[q].phase)
  {
    assert FlightOk(s, q, s.flights[q]);
  }

  /** Only the handler's first read puts a heartbeat on its way to activate. */
  lemma BecomesActivating(s: System, q: nat, now: int)
    requires Inv(s) && q in s.flights && q in Progress(s, q, now).flights
    requires Activating(Progress(s, q, now).flights[q].phase) && !Activating(s.flights[q].phase)
    ensures s.flights[q].phase.Admitted?
  {
    hide Inv, Enter, InsertNode, ReadIdentity, CheckRevocation, Record, CountEvent, FlushUpdate, Commit;
    ReadsDoNotActivate(s, q, now);
    if s.flights[q].phase.Updating? {
      UpdatesDoNotActivate(s, q, now);
    } else if s.flights[q].phase.Recording? || s.flights[q].phase.Counting? || s.flights[q].phase.Committing? {
      WritesDoNotActivate(s, q, now);
    }
  }

  lemma PendingStaysUntilCommit(s: System, q: nat, now: int)
    requires Inv(s) && q in s.flights && Activating(s.flights[q].phase) && !s.flights[q].phase.Committing?
    ensures q in Progress(s, q, now).flights && Activating(Progress(s, q, now).flights[q].phase)
  {
    hide Enter, InsertNode, ReadIdentity, CheckRevocation, Commit, Inv;
  }

  /** How one request's step moves the pending set. */
  lemma PendingAfter(s: System, t: System, q: nat, nodeId: string)
    requires MovesOne(s, t, q)
    ensures Pending(t, nodeId)
         == if s.flights[q].request.call == Beat(nodeId) && Activating(t.flights[q].phase) then Pending(s, nodeId) + {q}
            else Pending(s, nodeId) - {q}
  {
    hide Activating;
  }

  // ---------- every heartbeat that reads the node as onboarding is accounted for ----------

  /** Whether this event is a heartbeat's read of the node as onboarding. */
  predicate ReadsOnboarding(s: System, e: Event, nodeId: string) {
    e.Advance? && e.q in s.flights && e.q !in Pending(s, nodeId) && e.q in Pending(Step(s, e), nodeId)
  }

  /** The pending heartbeats this event abandons. */
  function Dropped(s: System, e: Event, nodeId: string): nat {
    match e
    case Fail(q) => if q in Pending(s, nodeId) then 1 else 0
    case Restart => |Pending(s, nodeId)|
    case _ => 0
  }

  function ReadCount(s: System, es: seq<Event>, nodeId: string): nat
    decreases |es|
  {
    if es == [] then 0
    else (if ReadsOnboarding(s, es[0], nodeId) then 1 else 0) + ReadCount(Step(s, es[0]), es[1..], nodeId)
  }

  function DropCount(s: System, es: seq<Event>, nodeId: string): nat
    decreases |es|
  {
    if es == [] then 0 else Dropped(s, es[0], nodeId) + DropCount(Step(s, es[0]), es[1..], nodeId)
  }

  /** One event: what was logged, is pending and was dropped, against what was
      logged, was pending and has been read. */
  ghost predicate Balanced(s: System, e: Event, nodeId: string) {
    var t := Step(s, e);
    && Activations(s.audit, nodeId) <= Activations(t.audit, nodeId)
    && Activations(t.audit, nodeId) + |Pending(t, nodeId)| + Dropped(s, e, nodeId)
       == Activations(s.audit, nodeId) + |Pending(s, nodeId)| + if ReadsOnboarding(s, e, nodeId) then 1 else 0
  }

  lemma CommittingCloses(s: System, q: nat, now: int)
    requires Inv(s) && q in s.flights && s.flights[q].phase.Committing?
    ensures Progress(s, q, now) == Progress(s, q, 0)
    ensures MovesOne(s, Progress(s, q, now), q) && Progress(s, q, now).flights[q].phase.Closing?
  {
    assert Owns(s, q) by { assert FlightOk(s, q, s.flights[q]); }
    hide Inv, Applied;
  }

  lemma CommitBalanced(s: System, q: nat, now: int, nodeId: string)
    requires Inv(s) && q in s.flights && s.flights[q].phase.Committing?
    ensures Balanced(s, Advance(q, now), nodeId)
  {
    hide Inv, Progress, Activations;
    var t := Progress(s, q, now);
    CommittingCloses(s, q, now);
    PendingAfter(s, t, q, nodeId);
    var f := s.flights[q];
    assert q in Pending(s, nodeId) <==> f.phase.reply == Activated && f.request.call == Beat(nodeId);
    hide Pending;
    if q in Pending(s, nodeId) {
      PendingCommitLogsOne(s, q, nodeId);
    } else {
      OtherCommitLogsNone(s, q, nodeId);
      assert Pending(s, nodeId) - {q} == Pending(s, nodeId);
    }
  }

  lemma ProgressBalanced(s: System, q: nat, now: int, nodeId: string)
    requires Inv(s) && q in s.flights && !s.flights[q].phase.Committing?
    ensures Balanced(s, Advance(q, now), nodeId)
  {
    hide Inv, Progress, Activations, Activating;
    var t := Progress(s, q, now);
    ProgressMovesOne(s, q, now);
    ProgressKeepsTables(s, q, now);
    PendingAfter(s, t, q, nodeId);
    if q in Pending(s, nodeId) {
      PendingStaysUntilCommit(s, q, now);
      assert Pending(t, nodeId) == Pending(s, nodeId);
    } else {
      hide Pending;
      assert Pending(s, nodeId) - {q} == Pending(s, nodeId);
    }
  }

  lemma AbandonedIsNotPending(s: System, q: nat, nodeId: string)
    requires q in s.flights
    ensures Abandon(s, q).nodes == s.nodes && Abandon(s, q).audit == s.audit
    ensures Pending(Abandon(s, q), nodeId) == Pending(s, nodeId) - {q}
  {
    var t := Abandon(s, q);
    assert MovesOne(s, t, q) && !Activating(t.flights[q].phase) by { hide Uncommitted, Pending; }
    PendingAfter(s, t, q, nodeId);
    hide Uncommitted, Activating, Pending;
  }

  lemma FailBalanced(s: System, q: nat, nodeId: string)
    requires q in s.flights
    ensures Balanced(s, Fail(q), nodeId)
  {
    AbandonedIsNotPending(s, q, nodeId);
    hide Abandon, Activations, Pending;
    assert q !in Pending(s, nodeId) ==> Pending(s, nodeId) - {q} == Pending(s, nodeId);
  }

  lemma ArriveKeepsPending(s: System, r: Request, nodeId: string)
    requires Inv(s)
    ensures Pending(Step(s, Arrive(r)), nodeId) == Pending(s, nodeId)
  {
    assert s.next !in s.flights by { hide FlightOk; }
    hide Inv;
  }

  lemma EveryStepIsBalanced(s: System, e: Event, nodeId: string)
    requires Inv(s)
    ensures Balanced(s, e, nodeId)
  {
    match e
    case Arrive(r) =>
      ArriveKeepsPending(s, r, nodeId);
      hide Inv, Activations, Pending;
    case Advance(q, now) =>
      hide Inv, Activations, Balanced;
      if q in s.flights {
        if s.flights[q].phase.Committing? {
          CommitBalanced(s, q, now, nodeId);
        } else {
          ProgressBalanced(s, q, now, nodeId);
        }
      } else {
        NothingIsBalanced(s, e, nodeId);
      }
    case Fail(q) =>
      hide Inv, Activations, Balanced;
      if q in s.flights {
        FailBalanced(s, q, nodeId);
      } else {
        NothingIsBalanced(s, e, nodeId);
      }
    case Install(serials) =>
      assert Pending(Step(s, e), nodeId) == Pending(s, nodeId);
      hide Inv, Activations, Pending;
    case Restart =>
      assert Pending(Step(s, e), nodeId) == {};
      hide Inv, Activations, Pending;
  }

  /** What is counted as a read of the node as onboarding is one. */
  lemma ReadFindsItOnboarding(s: System, e: Event, nodeId: string)
    requires Inv(s) && ReadsOnboarding(s, e, nodeId)
    ensures IsOnboarding(s.nodes, nodeId)
  {
    ProgressMovesOne(s, e.q, e.now);
    hide Inv, Progress, IsOnboarding, Activating;
    BecomesActivating(s, e.q, e.now);
    EnterActivates(s, e.q, e.now) by {
      assert Progress(s, e.q, e.now) == Enter(s, e.q, e.now) by { EnteringIs(s, e.q, e.now); }
    }
  }

  lemma EnteringIs(s: System, q: nat, now: int)
    requires q in s.flights && s.flights[q].phase.Admitted?
    ensures Progress(s, q, now) == Enter(s, q, now)
  {
  }

  lemma NothingIsBalanced(s: System, e: Event, nodeId: string)
    requires (e.Advance? || e.Fail?) && e.q !in s.flights
    ensures Balanced(s, e, nodeId)
  {
  }

  /** Conservation: over any run, whatever overlaps, fails or restarts, the
      heartbeats that read the node as onboarding are those whose activation was
      logged, those still pending and those abandoned. */
  lemma {:induction false} ReadsAreAccountedFor(s: System, es: seq<Event>, nodeId: string)
    requires Inv(s)
    ensures Activations(s.audit, nodeId) <= Activations(Run(s, es).audit, nodeId)
    ensures Activations(Run(s, es).audit, nodeId) + |Pending(Run(s, es), nodeId)| + DropCount(s, es, nodeId)
         == Activations(s.audit, nodeId) + |Pending(s, nodeId)| + ReadCount(s, es, nodeId)
    decreases |es|
  {
    hide Step, Inv, Activations, Pending, Dropped, ReadsOnboarding;
    if es != [] {
      EveryStepIsBalanced(s, es[0], nodeId);
      StepKeepsInv(s, es[0]);
      ReadsAreAccountedFor(Step(s, es[0]), es[1..], nodeId);
    }
  }

  // ---------- never two pending together: logged once ----------

  lemma CommitStep(s: System, q: nat, now: int, nodeId: string)
    requires Fine(s, nodeId) && q in s.flights && s.flights[q].phase.Committing?
    ensures var t := Progress(s, q, now);
      && Current(t, nodeId)
      && Activations(t.audit, nodeId) + Ahead(t.nodes, nodeId) == Activations(s.audit, nodeId) + Ahead(s.nodes, nodeId)
  {
    hide Inv, Progress, IsOnboarding, Activations, Find;
    var t := Progress(s, q, now);
    CommittingCloses(s, q, now);
    PendingAfter(s, t, q, nodeId);
    var f := s.flights[q];
    assert q in Pending(s, nodeId) <==> f.phase.reply == Activated && f.request.call == Beat(nodeId);
    hide Pending;
    if q in Pending(s, nodeId) {
      ActivatingCommit(s, q, nodeId);
    } else {
      OtherCommitLogsNone(s, q, nodeId);
      OtherCommitKeepsState(s, q, nodeId);
    }
  }

  lemma OtherStep(s: System, q: nat, now: int, nodeId: string)
    requires Fine(s, nodeId) && q in s.flights && !s.flights[q].phase.Committing?
    ensures Current(Progress(s, q, now), nodeId)
  {
    var t := Progress(s, q, now);
    ProgressKeepsTables(s, q, now);
    ProgressMovesOne(s, q, now);
    PendingAfter(s, t, q, nodeId);
    if Activating(t.flights[q].phase) && !Activating(s.flights[q].phase) {
      BecomesActivating(s, q, now);
      EnterActivates(s, q, now);
    }
    hide Inv, Progress, IsOnboarding, Activating;
  }

  lemma AbandonStep(s: System, q: nat, nodeId: string)
    requires Fine(s, nodeId) && q in s.flights
    ensures Current(Abandon(s, q), nodeId)
    ensures Abandon(s, q).nodes == s.nodes && Abandon(s, q).audit == s.audit
  {
    hide Abandon, Inv, IsOnboarding, Pending;
    AbandonedIsNotPending(s, q, nodeId);
  }

  lemma StepKeepsNode(s: System, e: Event, nodeId: string)
    requires Inv(s) && Find(s.nodes, nodeId).Some?
    ensures Inv(Step(s, e)) && Find(Step(s, e).nodes, nodeId).Some?
  {
    StepKeepsInv(s, e);
    StepEvolves(s, e);
    hide Inv, Step;
    FoundStaysFound(s.nodes, Step(s, e).nodes, nodeId);
  }

  lemma ActivationStep(s: System, e: Event, nodeId: string)
    requires Fine(s, nodeId)
    ensures var t := Step(s, e);
      && Inv(t) && Find(t.nodes, nodeId).Some? && Current(t, nodeId)
      && Activations(t.audit, nodeId) + Ahead(t.nodes, nodeId) == Activations(s.audit, nodeId) + Ahead(s.nodes, nodeId)
  {
    StepKeepsNode(s, e, nodeId);
    hide Inv, Progress, Abandon, IsOnboarding, Activations, Find, Alone;
    match e
    case Advance(q, now) =>
      hide Current;
      if q in s.flights {
        if s.flights[q].phase.Committing? {
          CommitStep(s, q, now, nodeId);
        } else {
          OtherStep(s, q, now, nodeId);
          ProgressKeepsTables(s, q, now);
        }
      }
    case Fail(q) =>
      hide Current;
      if q in s.flights { AbandonStep(s, q, nodeId); }
    case Arrive(r) =>
      ArriveKeepsPending(s, r, nodeId);
      hide Pending;
    case _ =>
  }

  /** If no two heartbeats for a registered node are ever between reading it as
      onboarding and committing together, its move to active is logged exactly
      once and nothing else is logged as one, whatever else is interleaved, fails
      or restarts. */
  lemma {:induction false} LoggedOnceUnlessPaired(s: System, es: seq<Event>, nodeId: string)
    requires Inv(s) && Find(s.nodes, nodeId).Some? && Current(s, nodeId) && NeverPaired(s, es, nodeId)
    ensures Activations(Run(s, es).audit, nodeId) - Activations(s.audit, nodeId)
         == Ahead(s.nodes, nodeId) - Ahead(Run(s, es).nodes, nodeId)
    decreases |es|
  {
    hide Step, Inv, Activations, Ahead, Current, Alone;
    if es != [] {
      ActivationStep(s, es[0], nodeId) by { hide Activations; }
      LoggedOnceUnlessPaired(Step(s, es[0]), es[1..], nodeId);
    }
  }

  lemma TwoPending(s: System, nodeId: string)
    requires !Alone(s, nodeId)
    ensures |Pending(s, nodeId)| >= 2
  {
    var p := Pending(s, nodeId);
    hide Pending;
    var a, b :| a in p && b in p && a != b;
    assert {a, b} <= p;
    assert |p - {a, b}| + |{a, b}| == |p|;
  }

  /** Two heartbeats that were ever pending together both log, unless one is
      abandoned. */
  lemma {:induction false} PairedLogsTwice(s: System, es: seq<Event>, nodeId: string)
    requires Inv(s) && !NeverPaired(s, es, nodeId)
    requires DropCount(s, es, nodeId) == 0 && Pending(Run(s, es), nodeId) == {}
    ensures Activations(Run(s, es).audit, nodeId) >= Activations(s.audit, nodeId) + 2
    decreases |es|
  {
    hide Step, Inv, Activations, Alone, Pending, Dropped, ReadsOnboarding;
    if !Alone(s, nodeId) {
      TwoPending(s, nodeId);
      ReadsAreAccountedFor(s, es, nodeId);
    } else {
      EveryStepIsBalanced(s, es[0], nodeId);
      StepKeepsInv(s, es[0]);
      PairedLogsTwice(Step(s, es[0]), es[1..], nodeId);
    }
  }

  /** Exactly when the activation is logged exactly once: over any run from and to
      a moment when no heartbeat for the node is pending, in which none of them is
      abandoned, the activations logged are the node's move from onboarding if and
      only if no two heartbeats were ever pending together. If two were, there is
      one record too many at least. */
  lemma {:induction false} LoggedOnceIffNeverPaired(s: System, es: seq<Event>, nodeId: string)
    requires Inv(s) && Find(s.nodes, nodeId).Some? && Pending(s, nodeId) == {}
    requires DropCount(s, es, nodeId) == 0 && Pending(Run(s, es), nodeId) == {}
    ensures NeverPaired(s, es, nodeId) <==>
      Activations(Run(s, es).audit, nodeId) - Activations(s.audit, nodeId)
      == Ahead(s.nodes, nodeId) - Ahead(Run(s, es).nodes, nodeId)
    ensures !NeverPaired(s, es, nodeId) ==> Activations(Run(s, es).audit, nodeId) - Activations(s.audit, nodeId) >= 2
  {
    hide Run, NeverPaired, Inv, Activations, DropCount, IsOnboarding, Pending;
    if NeverPaired(s, es, nodeId) {
      LoggedOnceUnlessPaired(s, es, nodeId);
    } else {
      PairedLogsTwice(s, es, nodeId);
    }
  }

  // ---------- a discipline that is enough ----------

  /** A heartbeat for the node that has not committed or been answered. */
  predicate InFlight(f: Flight, nodeId: string) {
    f.request.call == Beat(nodeId) && !f.phase.Closing? && !f.phase.Answered?
  }

  ghost predicate NeverOverlaps(s: System, es: seq<Event>, nodeId: string)
    decreases |es|
  {
    && (forall a, b | a in s.flights && b in s.flights ::
          InFlight(s.flights[a], nodeId) && InFlight(s.flights[b], nodeId) ==> a == b)
    && (es != [] ==> NeverOverlaps(Step(s, es[0]), es[1..], nodeId))
  }

  lemma {:induction false} NoOverlapNoPair(s: System, es: seq<Event>, nodeId: string)
    requires NeverOverlaps(s, es, nodeId)
    ensures NeverPaired(s, es, nodeId)
    decreases |es|
  {
    hide Step;
    if es != [] {
      NoOverlapNoPair(Step(s, es[0]), es[1..], nodeId);
    }
  }

  /** One heartbeat of the node at a time is enough for a single record. */
  lemma {:induction false} LoggedOnceWithoutOverlap(s: System, es: seq<Event>, nodeId: string)
    requires Inv(s) && Find(s.nodes, nodeId).Some? && Current(s, nodeId) && NeverOverlaps(s, es, nodeId)
    ensures Activations(Run(s, es).audit, nodeId) - Activations(s.audit, nodeId)
         == Ahead(s.nodes, nodeId) - Ahead(Run(s, es).nodes, nodeId)
  {
    NoOverlapNoPair(s, es, nodeId);
    hide Run, NeverOverlaps, NeverPaired, Inv, Activations, Ahead, Current;
    LoggedOnceUnlessPaired(s, es, nodeId);
  }
}
