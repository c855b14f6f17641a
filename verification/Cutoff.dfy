/** What a certificate can still do once its serial is cached, with any number of
    requests in flight (controller/app/core/security.py). */
module Cutoff {
  import opened Wrappers
  import opened Tables
  import opened Security
  import opened Requests
  import opened Interleaving
  import opened Invariants
  import opened Safety
  import Controller
  import Solo

  predicate Bears(r: Request, serial: nat) {
    Authenticate(r.headers).Known? && Authenticate(r.headers).id.serial == Some(serial)
  }

  /** Before the revocation check, or refused by it, or failed. */
  predicate Barred(phase: Phase) {
    match phase
    case Received => true
    case Identified => true
    case Recording(_, update, reply) => reply == RevokedCert && update.None?
    case Counting(reply) => reply == RevokedCert
    case Committing(reply) => reply == RevokedCert
    case Closing(reply, _) => reply == RevokedCert
    case Answered(response, _, _) => response == RevokedCert || response == Failure
    case _ => false
  }

  /** The requests with this serial that had passed the check already. */
  function PastTheCheck(s: System, serial: nat): set<nat> {
    set q | q in s.flights && Bears(s.flights[q].request, serial) && !Barred(s.flights[q].phase)
  }

  /** Every other request with this serial is barred. */
  ghost predicate AllBarredBut(s: System, serial: nat, past: set<nat>) {
    forall q :: q in s.flights && Bears(s.flights[q].request, serial) && q !in past ==> Barred(s.flights[q].phase)
  }

  /** The serial stays cached. */
  ghost predicate KeepsCached(es: seq<Event>, serial: nat) {
    forall i :: 0 <= i < |es| ==> !es[i].Restart? && (es[i].Install? ==> serial in es[i].serials)
  }

  lemma BarredReads(s: System, q: nat, now: int, serial: nat)
    requires q in s.flights && Bears(s.flights[q].request, serial) && serial in s.revoked
    ensures q in ReadIdentity(s, q).flights && Barred(ReadIdentity(s, q).flights[q].phase)
    ensures q in CheckRevocation(s, q, now).flights && Barred(CheckRevocation(s, q, now).flights[q].phase)
  {
    hide ExtractCn, RevocationEvent, ParseSerial;
  }

  lemma BarredRecords(s: System, q: nat, event: AuditRow)
    requires q in s.flights && Barred(s.flights[q].phase)
    ensures var t := Record(s, q, event, None, RevokedCert); q in t.flights && Barred(t.flights[q].phase)
  {
  }

  lemma BarredCommits(s: System, q: nat)
    requires q in s.flights && Barred(s.flights[q].phase)
    ensures var t := CountEvent(s, q, RevokedCert); q in t.flights && Barred(t.flights[q].phase)
    ensures Owns(s, q) ==> var t := Commit(s, q, RevokedCert); q in t.flights && Barred(t.flights[q].phase)
  {
    hide Applied;
  }

  lemma BarredStays(s: System, q: nat, now: int, serial: nat)
    requires q in s.flights && Bears(s.flights[q].request, serial) && serial in s.revoked
    requires Barred(s.flights[q].phase)
    ensures q in Progress(s, q, now).flights && Barred(Progress(s, q, now).flights[q].phase)
  {
    hide ReadIdentity, CheckRevocation, Enter, InsertNode, Record, CountEvent, FlushUpdate, Commit, Owns, Bears;
    match s.flights[q].phase
    case Received => BarredReads(s, q, now, serial);
    case Identified => BarredReads(s, q, now, serial);
    case Recording(event, _, _) => BarredRecords(s, q, event);
    case Counting(_) => BarredCommits(s, q);
    case Committing(_) => BarredCommits(s, q);
    case _ =>
  }

  /** A barred request writes no node row, not even when it commits. */
  lemma BarredWritesNothing(s: System, q: nat, now: int)
    requires Inv(s) && q in s.flights && Barred(s.flights[q].phase)
    ensures Progress(s, q, now).nodes == s.nodes
  {
    if s.flights[q].phase.Committing? {
      assert FlightOk(s, q, s.flights[q]);
      assert s.writer.value.insert.None? && s.writer.value.update.None?;
      hide Inv, FlightOk;
    } else {
      ProgressKeepsTables(s, q, now);
    }
  }

  lemma StepKeepsBarred(s: System, e: Event, serial: nat, past: set<nat>)
    requires Inv(s) && serial in s.revoked && KeepsCached([e], serial) && AllBarredBut(s, serial, past)
    ensures AllBarredBut(Step(s, e), serial, past) && serial in Step(s, e).revoked
  {
    assert [e][0] == e;
    hide Inv, Bears, Progress, Abandon;
    match e
    case Advance(q, now) =>
      if q in s.flights {
        hide Barred;
        ProgressMovesOne(s, q, now);
        ProgressKeepsRevoked(s, q, now);
        if Bears(s.flights[q].request, serial) && q !in past {
          BarredStays(s, q, now, serial);
        }
      }
    case Fail(q) => if q in s.flights { AbandonBars(s, q); }
    case _ =>
  }

  lemma ProgressKeepsRevoked(s: System, q: nat, now: int)
    requires q in s.flights
    ensures Progress(s, q, now).revoked == s.revoked
  {
    hide Authenticate, Find, IsRevoked, Actor, RevocationEvent, RegisterEvent, NewRow, Decide, Applied;
  }

  lemma AbandonBars(s: System, q: nat)
    requires q in s.flights
    ensures MovesOne(s, Abandon(s, q), q) && Abandon(s, q).revoked == s.revoked
    ensures Barred(s.flights[q].phase) ==> Barred(Abandon(s, q).flights[q].phase)
  {
    hide Uncommitted;
  }

  lemma {:induction false} RunKeepsBarred(s: System, es: seq<Event>, serial: nat, past: set<nat>)
    requires Inv(s) && serial in s.revoked && KeepsCached(es, serial) && AllBarredBut(s, serial, past)
    ensures AllBarredBut(Run(s, es), serial, past)
    decreases |es|
  {
    hide Step, Inv, Bears, AllBarredBut;
    if es != [] {
      StepKeepsBarred(s, es[0], serial, past) by { assert KeepsCached([es[0]], serial); }
      StepKeepsInv(s, es[0]);
      RunKeepsBarred(Step(s, es[0]), es[1..], serial, past);
    }
  }

  /** While a serial stays cached, every request with it that had not passed the
      check, in flight or yet to come, is refused or fails. */
  lemma {:induction false} OthersAreRefused(s: System, es: seq<Event>, serial: nat)
    requires Inv(s) && serial in s.revoked && KeepsCached(es, serial)
    ensures AllBarredBut(Run(s, es), serial, PastTheCheck(s, serial))
  {
    assert AllBarredBut(s, serial, PastTheCheck(s, serial));
    hide Inv, Run, AllBarredBut, PastTheCheck;
    RunKeepsBarred(s, es, serial, PastTheCheck(s, serial));
  }

  // ---------- writing a node row ----------

  /** `q` commits an insert or an update of a node row. */
  predicate Writes(s: System, e: Event, q: nat) {
    && e.Advance? && e.q == q && q in s.flights && s.flights[q].phase.Committing? && Owns(s, q)
    && (s.writer.value.insert.Some? || s.writer.value.update.Some?)
  }

  /** Only such a commit changes the node table. */
  lemma ChangeIsWrite(s: System, e: Event)
    requires Step(s, e).nodes != s.nodes
    ensures e.Advance? && Writes(s, e, e.q)
  {
    hide Progress, Abandon;
    match e
    case Advance(q, now) =>
      if q in s.flights {
        if s.flights[q].phase.Committing? {
          CommitChanges(s, q, now);
        } else {
          ProgressKeepsTables(s, q, now);
        }
      }
    case Fail(q) => if q in s.flights { AbandonKeepsNodes(s, q); }
    case _ =>
  }

  lemma CommitChanges(s: System, q: nat, now: int)
    requires q in s.flights && s.flights[q].phase.Committing? && Progress(s, q, now).nodes != s.nodes
    ensures Writes(s, Advance(q, now), q)
  {
  }

  predicate IsWritingReply(reply: Response) {
    reply.Created? || reply.Activated? || reply.Beaten?
  }

  /** The flight is past the check and nothing in the tables stands in its way: a
      registration of an id that is free, or a heartbeat that is not another
      node's, or either with its write under way. */
  predicate MayWrite(s: System, f: Flight) {
    match f.phase
    case Admitted =>
      (match f.request.call
       case Register(p) => MayRegister(Actor(f.request), p) && Find(s.nodes, p.nodeId).None?
       case Beat(n) =>
         var i := Find(s.nodes, n);
         i.None? || s.nodes[i.value].base.commonName == Actor(f.request).commonName
       case _ => false)
    case Inserting => f.request.call.Register? && Find(s.nodes, f.request.call.payload.nodeId).None?
    case Recording(_, _, reply) => IsWritingReply(reply)
    case Counting(reply) => IsWritingReply(reply)
    case Updating(_, _) => true
    case Committing(reply) => IsWritingReply(reply)
    case _ => false
  }

  /** The requests with this serial that may write. */
  function Writers(s: System, serial: nat): set<nat> {
    set q | q in s.flights && Bears(s.flights[q].request, serial) && MayWrite(s, s.flights[q])
  }

  predicate WritesWith(s: System, e: Event, q: nat, serial: nat) {
    Writes(s, e, q) && Bears(s.flights[q].request, serial)
  }

  /** At some step of the run a request with this serial, number `q`, writes. */
  predicate WritesDuring(s: System, es: seq<Event>, q: nat, serial: nat)
    decreases |es|
  {
    es != [] && (WritesWith(s, es[0], q, serial) || WritesDuring(Step(s, es[0]), es[1..], q, serial))
  }

  /** Some run in which the serial stays cached has it write. */
  ghost predicate CanStillWrite(s: System, q: nat, serial: nat) {
    exists es: seq<Event> :: KeepsCached(es, serial) && WritesDuring(s, es, q, serial)
  }

  // ---------- the others cannot ----------

  lemma WriterMayWrite(s: System, e: Event, q: nat, serial: nat)
    requires Inv(s) && WritesWith(s, e, q, serial)
    ensures q in s.flights && Bears(s.flights[q].request, serial) && MayWrite(s, s.flights[q])
  {
    assert FlightOk(s, q, s.flights[q]);
    hide EventFor, TablesOk, FlightsOk, AuthorsOk, CounterOk, Authenticate;
  }

  /** What blocks a write, a taken id or another node's row, stays. */
  lemma BlockedLater(s: System, t: System, f: Flight)
    requires !MayWrite(s, f) && Extends(s.nodes, t.nodes) && Distinct(t.nodes)
    ensures !MayWrite(t, f)
  {
    match f.phase {
      case Admitted =>
        match f.request.call {
          case Register(p) => if Find(s.nodes, p.nodeId).Some? { FoundStaysFound(s.nodes, t.nodes, p.nodeId); }
          case Beat(n) =>
            var i := Find(s.nodes, n).value;
            assert t.nodes[i].base.nodeId == n && t.nodes[i].base.commonName == s.nodes[i].base.commonName;
            FindTheRow(t.nodes, i);
          case _ =>
        }
      case Inserting =>
        if f.request.call.Register? { FoundStaysFound(s.nodes, t.nodes, f.request.call.payload.nodeId); }
      case _ =>
    }
  }

  lemma BlockedEnters(s: System, q: nat, now: int)
    requires q in s.flights && s.flights[q].phase.Admitted? && !MayWrite(s, s.flights[q])
    ensures q in Enter(s, q, now).flights && !MayWrite(Enter(s, q, now), Enter(s, q, now).flights[q])
  {
    hide Authenticate, Find, StateChangeEvent, ForeignRegisterEvent, ForeignBeatEvent, Actor;
  }

  lemma BlockedInserts(s: System, q: nat, now: int)
    requires q in s.flights && s.flights[q].phase.Inserting? && !MayWrite(s, s.flights[q])
    ensures q in InsertNode(s, q, now).flights && !MayWrite(InsertNode(s, q, now), InsertNode(s, q, now).flights[q])
  {
    hide Find, Actor, RegisterEvent, NewRow;
  }

  lemma BlockedRecords(s: System, q: nat, event: AuditRow, update: Option<Update>, reply: Response)
    requires q in s.flights && s.flights[q].phase == Recording(event, update, reply) && !MayWrite(s, s.flights[q])
    ensures var t := Record(s, q, event, update, reply); q in t.flights && !MayWrite(t, t.flights[q])
  {
    hide Find;
  }

  lemma BlockedFinishes(s: System, q: nat, now: int)
    requires q in s.flights && !MayWrite(s, s.flights[q])
    requires var phase := s.flights[q].phase;
      phase.Counting? || phase.Committing? || phase.Closing? || phase.Answered?
    ensures q in Progress(s, q, now).flights && !MayWrite(Progress(s, q, now), Progress(s, q, now).flights[q])
  {
    hide Applied, Find;
  }

  lemma BarredMayNotWrite(s: System, f: Flight)
    requires Barred(f.phase)
    ensures !MayWrite(s, f)
  {
  }

  lemma BlockedStays(s: System, q: nat, now: int, serial: nat)
    requires q in s.flights && Bears(s.flights[q].request, serial) && serial in s.revoked
    requires !MayWrite(s, s.flights[q])
    ensures q in Progress(s, q, now).flights && !MayWrite(Progress(s, q, now), Progress(s, q, now).flights[q])
  {
    match s.flights[q].phase
    case Received =>
      hide Progress, MayWrite;
      BarredStays(s, q, now, serial);
      BarredMayNotWrite(Progress(s, q, now), Progress(s, q, now).flights[q]);
    case Identified =>
      hide Progress, MayWrite;
      BarredStays(s, q, now, serial);
      BarredMayNotWrite(Progress(s, q, now), Progress(s, q, now).flights[q]);
    case Admitted => hide Enter, MayWrite; BlockedEnters(s, q, now);
    case Inserting => hide InsertNode, MayWrite; BlockedInserts(s, q, now);
    case Recording(event, update, reply) => hide Record, MayWrite; BlockedRecords(s, q, event, update, reply);
    case Updating(_, _) =>
    case _ => hide Progress, MayWrite; BlockedFinishes(s, q, now);
  }

  /** Every other request with this serial may not write. */
  ghost predicate NoOthersWrite(s: System, serial: nat, these: set<nat>) {
    forall q :: q in s.flights && Bears(s.flights[q].request, serial) && q !in these ==> !MayWrite(s, s.flights[q])
  }

  lemma AbandonBlocks(s: System, q: nat)
    requires q in s.flights
    ensures !MayWrite(Abandon(s, q), Abandon(s, q).flights[q])
  {
    hide Uncommitted;
  }

  lemma OthersStayBlocked(s: System, t: System, q: nat, serial: nat, these: set<nat>)
    requires NoOthersWrite(s, serial, these) && MovesOne(s, t, q)
    requires Extends(s.nodes, t.nodes) && Distinct(t.nodes)
    requires Bears(s.flights[q].request, serial) && q !in these ==> !MayWrite(t, t.flights[q])
    ensures NoOthersWrite(t, serial, these)
  {
    hide Bears, MayWrite, Extends, Distinct;
    forall k | k in t.flights && Bears(t.flights[k].request, serial) && k !in these
      ensures !MayWrite(t, t.flights[k])
    {
      if k != q {
        BlockedLater(s, t, s.flights[k]);
      }
    }
  }

  lemma SameRowsExtend(nodes: seq<NodeRow>)
    ensures Extends(nodes, nodes)
  {
  }

  lemma AdvanceKeepsBlocked(s: System, q: nat, now: int, serial: nat, these: set<nat>)
    requires Inv(s) && serial in s.revoked && NoOthersWrite(s, serial, these) && q in s.flights
    ensures NoOthersWrite(Progress(s, q, now), serial, these) && serial in Progress(s, q, now).revoked
  {
    var t := Progress(s, q, now);
    assert Step(s, Advance(q, now)) == t;
    StepEvolves(s, Advance(q, now));
    StepKeepsInv(s, Advance(q, now));
    assert Distinct(t.nodes) && Extends(s.nodes, t.nodes) by {
      hide FlightsOk, WriterOk, AuthorsOk, CounterOk, Progress;
    }
    ProgressMovesOne(s, q, now);
    ProgressKeepsRevoked(s, q, now);
    hide Inv, Bears, Progress, MayWrite, Distinct, Extends, MovesOne, Step;
    if Bears(s.flights[q].request, serial) && q !in these {
      BlockedNow(s, q, serial, these);
      BlockedStays(s, q, now, serial);
    }
    OthersStayBlocked(s, t, q, serial, these);
  }

  lemma FailKeepsBlocked(s: System, q: nat, serial: nat, these: set<nat>)
    requires Distinct(s.nodes) && NoOthersWrite(s, serial, these) && q in s.flights
    ensures NoOthersWrite(Abandon(s, q), serial, these)
  {
    AbandonBars(s, q);
    AbandonKeepsNodes(s, q);
    SameRowsExtend(s.nodes);
    hide MayWrite, Abandon, Bears, Distinct, Extends;
    if Bears(s.flights[q].request, serial) && q !in these {
      BlockedNow(s, q, serial, these);
      AbandonBlocks(s, q);
    }
    OthersStayBlocked(s, Abandon(s, q), q, serial, these);
  }

  /** An arrival, or a new cache, changes nothing about who may write. */
  lemma ArriveKeepsBlocked(s: System, e: Event, serial: nat, these: set<nat>)
    requires (e.Arrive? || e.Install?) && NoOthersWrite(s, serial, these)
    ensures NoOthersWrite(Step(s, e), serial, these)
  {
    var t := Step(s, e);
    hide Bears;
    forall f | !MayWrite(s, f) ensures !MayWrite(t, f) {
      hide Authenticate;
    }
    hide MayWrite;
    if e.Arrive? { BarredMayNotWrite(t, Flight(e.request, Received)); }
  }

  lemma StepKeepsBlocked(s: System, e: Event, serial: nat, these: set<nat>)
    requires Inv(s) && serial in s.revoked && KeepsCached([e], serial) && NoOthersWrite(s, serial, these)
    ensures NoOthersWrite(Step(s, e), serial, these) && serial in Step(s, e).revoked
  {
    assert [e][0] == e;
    assert Distinct(s.nodes) by { hide FlightsOk, WriterOk, AuthorsOk, CounterOk; }
    hide Inv, Progress, Abandon, NoOthersWrite, Distinct;
    match e
    case Advance(q, now) => if q in s.flights { AdvanceKeepsBlocked(s, q, now, serial, these); }
    case Fail(q) =>
      if q in s.flights {
        FailKeepsBlocked(s, q, serial, these);
        AbandonBars(s, q);
      }
    case _ => ArriveKeepsBlocked(s, e, serial, these);
  }

  lemma {:induction false} OnlyTheseWrite(s: System, es: seq<Event>, serial: nat, these: set<nat>, q: nat)
    requires Inv(s) && serial in s.revoked && KeepsCached(es, serial) && NoOthersWrite(s, serial, these)
    requires WritesDuring(s, es, q, serial)
    ensures q in these
    decreases |es|
  {
    hide Step, Inv, Bears, NoOthersWrite, WritesWith;
    if WritesWith(s, es[0], q, serial) {
      WriterMayWrite(s, es[0], q, serial);
      BlockedNow(s, q, serial, these);
    } else {
      StepKeepsBlocked(s, es[0], serial, these) by { assert KeepsCached([es[0]], serial); }
      StepKeepsInv(s, es[0]);
      OnlyTheseWrite(Step(s, es[0]), es[1..], serial, these, q);
    }
  }

  lemma BlockedNow(s: System, q: nat, serial: nat, these: set<nat>)
    requires NoOthersWrite(s, serial, these) && q in s.flights && Bears(s.flights[q].request, serial)
    ensures MayWrite(s, s.flights[q]) ==> q in these
  {
  }

  // ---------- and these can ----------

  predicate LockIsFree(s: System, q: nat) {
    s.writer.None? || Owns(s, q)
  }

  /** A heartbeat for a node that is not registered yet has to wait for that. */
  predicate AwaitsNode(s: System, f: Flight) {
    f.phase.Admitted? && f.request.call.Beat? && Find(s.nodes, f.request.call.nodeId).None?
  }

  /** The turns a request needs from here to its commit, at most. */
  function TurnsLeft(phase: Phase): nat {
    match phase
    case Admitted => 5
    case Inserting => 4
    case Recording(_, _, _) => 3
    case Counting(_) => 2
    case Updating(_, _) => 2
    case _ => 1
  }

  ghost predicate Nearer(s: System, t: System, q: nat) {
    && q in s.flights && q in t.flights && t.flights[q].request == s.flights[q].request
    && MayWrite(t, t.flights[q]) && LockIsFree(t, q) && !t.flights[q].phase.Admitted?
    && TurnsLeft(t.flights[q].phase) < TurnsLeft(s.flights[q].phase)
  }

  lemma EnterNearer(s: System, q: nat, now: int)
    requires q in s.flights && s.flights[q].phase.Admitted? && MayWrite(s, s.flights[q]) && LockIsFree(s, q)
    requires !AwaitsNode(s, s.flights[q])
    ensures Nearer(s, Enter(s, q, now), q)
  {
    hide Authenticate, Find, StateChangeEvent, ForeignRegisterEvent, ForeignBeatEvent, Actor;
  }

  lemma InsertNearer(s: System, q: nat, now: int)
    requires q in s.flights && s.flights[q].phase.Inserting? && MayWrite(s, s.flights[q]) && s.writer.None?
    ensures Nearer(s, InsertNode(s, q, now), q)
  {
    hide Find, Actor, RegisterEvent, NewRow;
  }

  lemma RecordNearer(s: System, q: nat, event: AuditRow, update: Option<Update>, reply: Response)
    requires q in s.flights && s.flights[q].phase == Recording(event, update, reply)
    requires MayWrite(s, s.flights[q]) && LockIsFree(s, q)
    ensures Nearer(s, Record(s, q, event, update, reply), q)
  {
    hide Find;
  }

  lemma CountNearer(s: System, q: nat, reply: Response)
    requires q in s.flights && s.flights[q].phase == Counting(reply) && MayWrite(s, s.flights[q])
    requires Owns(s, q) && s.writer.value.event.Some?
    ensures Nearer(s, CountEvent(s, q, reply), q)
  {
    hide Find;
  }

  lemma FlushNearer(s: System, q: nat, change: Update, reply: Response)
    requires q in s.flights && s.flights[q].phase == Updating(change, reply) && reply.Beaten? && s.writer.None?
    ensures Nearer(s, FlushUpdate(s, q, change, reply), q)
  {
    hide Find;
  }

  /** What the phase says of the lock and the open transaction. */
  lemma PhaseSays(s: System, q: nat)
    requires Inv(s) && q in s.flights
    ensures var phase := s.flights[q].phase;
      && (phase.Admitted? || phase.Inserting? || phase.Updating? ==> !Owns(s, q))
      && (phase.Counting? ==> Owns(s, q) && s.writer.value.event.Some?)
      && (phase.Updating? ==> phase.reply.Beaten?)
  {
    assert FlightOk(s, q, s.flights[q]);
    hide EventFor, TablesOk, FlightsOk, AuthorsOk, CounterOk, Authenticate, IsEventOf, UpdateOk, InsertOk;
  }

  lemma WriterAdvances(s: System, q: nat, now: int)
    requires Inv(s) && q in s.flights && MayWrite(s, s.flights[q]) && LockIsFree(s, q)
    requires !AwaitsNode(s, s.flights[q]) && !s.flights[q].phase.Committing?
    ensures Nearer(s, Progress(s, q, now), q)
  {
    PhaseSays(s, q);
    hide Inv, Nearer, Enter, InsertNode, Record, CountEvent, FlushUpdate;
    match s.flights[q].phase
    case Admitted => EnterNearer(s, q, now);
    case Inserting => InsertNearer(s, q, now);
    case Recording(event, update, reply) => RecordNearer(s, q, event, update, reply);
    case Counting(reply) => CountNearer(s, q, reply);
    case Updating(change, reply) => FlushNearer(s, q, change, reply);
    case _ =>
  }

  lemma CommitWrites(s: System, q: nat, now: int)
    requires Inv(s) && q in s.flights && s.flights[q].phase.Committing? && MayWrite(s, s.flights[q])
    ensures Writes(s, Advance(q, now), q)
  {
    assert FlightOk(s, q, s.flights[q]);
    hide EventFor, TablesOk, FlightsOk, AuthorsOk, CounterOk, Authenticate, IsEventOf;
  }

  /** With the lock free, turns of its own take it to its write. */
  lemma {:induction false} TurnsWrite(s: System, q: nat, now: int, n: nat, serial: nat)
    requires Inv(s) && q in s.flights && Bears(s.flights[q].request, serial)
    requires MayWrite(s, s.flights[q]) && LockIsFree(s, q) && !AwaitsNode(s, s.flights[q])
    requires TurnsLeft(s.flights[q].phase) <= n
    ensures WritesDuring(s, Solo.Turns(q, now, n), q, serial)
    decreases n
  {
    var es := Solo.Turns(q, now, n);
    assert es[0] == Advance(q, now) && es[1..] == Solo.Turns(q, now, n - 1);
    if s.flights[q].phase.Committing? {
      CommitWrites(s, q, now);
      hide Writes, Bears;
    } else {
      WriterAdvances(s, q, now);
      StepKeepsInv(s, es[0]);
      assert Step(s, es[0]) == Progress(s, q, now);
      hide Inv, Progress, Step, Writes, Bears, MayWrite, LockIsFree;
      TurnsWrite(Progress(s, q, now), q, now, n - 1, serial);
    }
  }

  // ---------- getting there ----------

  lemma {:induction false} WritesLater(s: System, es: seq<Event>, more: seq<Event>, q: nat, serial: nat)
    requires WritesDuring(Run(s, es), more, q, serial)
    ensures WritesDuring(s, es + more, q, serial)
    decreases |es|
  {
    hide Step, WritesWith;
    if es == [] {
      assert es + more == more;
    } else {
      assert (es + more)[1..] == es[1..] + more;
      WritesLater(Step(s, es[0]), es[1..], more, q, serial);
    }
  }

  /** A rollback of whoever holds the lock frees it. */
  function Unlock(s: System, q: nat): seq<Event> {
    if LockIsFree(s, q) then [] else [Fail(s.writer.value.owner)]
  }

  lemma RunOne(s: System, e: Event)
    ensures Run(s, [e]) == Step(s, e)
  {
    hide Step;
    assert Run(s, [e]) == Run(Step(s, e), []);
  }

  lemma OwnerIsWriting(s: System)
    requires Inv(s) && s.writer.Some?
    ensures var k := s.writer.value.owner;
      && k in s.flights
      && (s.flights[k].phase.Recording? || s.flights[k].phase.Counting? || s.flights[k].phase.Committing?)
  {
    hide TablesOk, FlightsOk, AuthorsOk, CounterOk, InsertOk, UpdateOk, IsEventOf;
  }

  lemma FailUnlocks(s: System, k: nat, q: nat)
    requires k in s.flights && q in s.flights && q != k && Owns(s, k)
    requires s.flights[k].phase.Recording? || s.flights[k].phase.Counting? || s.flights[k].phase.Committing?
    ensures var t := Step(s, Fail(k));
      && t.writer.None? && t.nodes == s.nodes && t.revoked == s.revoked && t.next == s.next
      && q in t.flights && t.flights[q] == s.flights[q]
  {
    hide Uncommitted;
  }

  lemma UnlockedKeeps(s: System, q: nat)
    requires Inv(s) && q in s.flights
    ensures var t := Run(s, Unlock(s, q));
      && Inv(t) && LockIsFree(t, q) && t.nodes == s.nodes && t.revoked == s.revoked && t.next == s.next
      && q in t.flights && t.flights[q] == s.flights[q]
  {
    if !LockIsFree(s, q) {
      var k := s.writer.value.owner;
      RunOne(s, Fail(k));
      OwnerIsWriting(s);
      StepKeepsInv(s, Fail(k));
      hide Inv, Run, Step;
      FailUnlocks(s, k, q);
    }
  }

  /** A controller's certificate, and its registration of a node for `c`. */
  const CONTROLLER: string := "controller.lab"

  function Provision(nodeId: string, c: string): Request {
    Request(Headers(Some("SUCCESS"), Some(CN + CONTROLLER), NoSerial),
            Register(NodeBase(nodeId, c, "", Active, None, None)))
  }

  lemma ProvisionIsController(nodeId: string, c: string)
    ensures Authenticate(Provision(nodeId, c).headers) == Known(Identity(CONTROLLER, None))
  {
    ExtractAtStart(CONTROLLER, "");
    assert CN + CONTROLLER + "" == CN + CONTROLLER;
    assert Strip(CONTROLLER) == CONTROLLER;
    hide ExtractCn;
  }

  function Provisioning(s: System, nodeId: string, c: string, now: int): seq<Event> {
    [Arrive(Provision(nodeId, c))] + Solo.Turns(s.next, now, 8)
  }

  lemma ProvisionServed(s: Controller.Store, nodeId: string, c: string, now: int)
    requires Find(s.nodes, nodeId).None?
    ensures var t := Controller.Serve(s, Provision(nodeId, c), now);
      && t.revoked == s.revoked && Find(t.nodes, nodeId) == Some(|s.nodes|) && |t.nodes| == |s.nodes| + 1
      && t.nodes[|s.nodes|].base.commonName == c
  {
    var r := Provision(nodeId, c);
    ProvisionIsController(nodeId, c);
    Controller.ServeLive(s, r, now, Identity(CONTROLLER, None));
    ProvisionedRow(s.nodes, nodeId, NewRow(r.call.payload, now));
    hide Authenticate, Controller.Serve, Controller.Respond, Find, EventFor;
  }

  lemma ProvisioningKeepsFlight(s: System, q: nat, nodeId: string, c: string, now: int)
    requires q in s.flights && q != s.next
    ensures var t := Run(s, Provisioning(s, nodeId, c, now)); q in t.flights && t.flights[q] == s.flights[q]
  {
    var r, es := Provision(nodeId, c), Provisioning(s, nodeId, c, now);
    var t0 := Step(s, Arrive(r));
    assert es[0] == Arrive(r) && es[1..] == Solo.Turns(s.next, now, 8);
    assert Run(s, es) == Run(t0, Solo.Turns(s.next, now, 8));
    hide Run;
    Solo.DriveIsRun(t0, s.next, now, 8);
    Solo.DriveKeepsOthers(t0, s.next, now, 8, q);
  }

  lemma FlightIsOld(s: System, q: nat)
    requires Inv(s) && q in s.flights
    ensures q != s.next
  {
    hide FlightOk, TablesOk, WriterOk, AuthorsOk, CounterOk;
  }

  lemma ProvisionedKeeps(s: System, q: nat, nodeId: string, c: string, now: int)
    requires Inv(s) && s.writer.None? && q in s.flights && Find(s.nodes, nodeId).None?
    ensures var t := Run(s, Provisioning(s, nodeId, c, now));
      && Inv(t) && t.writer.None? && t.revoked == s.revoked
      && q in t.flights && t.flights[q] == s.flights[q]
      && Find(t.nodes, nodeId).Some? && t.nodes[Find(t.nodes, nodeId).value].base.commonName == c
  {
    FlightIsOld(s, q);
    RunKeepsInv(s, Provisioning(s, nodeId, c, now));
    hide Inv, Run, Find, Controller.Serve, Controller.Respond, Provision;
    ProvisioningKeepsFlight(s, q, nodeId, c, now);
    Solo.SoloRunIsServe(s, Provision(nodeId, c), now);
    ProvisionServed(Solo.View(s), nodeId, c, now);
  }

  lemma ProvisionedRow(nodes: seq<NodeRow>, nodeId: string, row: NodeRow)
    requires row.base.nodeId == nodeId
    ensures Find(nodes + [row], nodeId) == Some(|nodes|)
  {
  }
  // ---------- who can still write ----------

  ghost predicate IsQuiet(es: seq<Event>) {
    forall i :: 0 <= i < |es| ==> !es[i].Restart? && !es[i].Install?
  }

  lemma {:induction false} TurnsAreQuiet(q: nat, now: int, n: nat)
    ensures IsQuiet(Solo.Turns(q, now, n))
  {
    if n > 0 {
      TurnsAreQuiet(q, now, n - 1);
    }
  }

  /** The run that lets a writer write: free the lock, register the node it waits
      for, and give it its turns. */
  function Opening(s: System, q: nat): seq<Event>
    requires q in s.flights
  {
    var f := s.flights[q];
    Unlock(s, q) +
    if AwaitsNode(s, f)
    then Provisioning(Run(s, Unlock(s, q)), f.request.call.nodeId, Actor(f.request).commonName, 0)
    else []
  }

  lemma OpeningIsQuiet(s: System, q: nat)
    requires q in s.flights
    ensures IsQuiet(Opening(s, q))
  {
    TurnsAreQuiet(Run(s, Unlock(s, q)).next, 0, 8);
    hide Run, AwaitsNode;
  }

  lemma SameTablesSameWriters(s: System, t: System, f: Flight)
    requires s.nodes == t.nodes
    ensures MayWrite(s, f) == MayWrite(t, f) && AwaitsNode(s, f) == AwaitsNode(t, f)
  {
    hide Find, Actor;
  }

  lemma OpeningReadies(s: System, q: nat)
    requires Inv(s) && q in s.flights && MayWrite(s, s.flights[q])
    ensures var t := Run(s, Opening(s, q));
      && Inv(t) && q in t.flights && t.flights[q] == s.flights[q]
      && LockIsFree(t, q) && MayWrite(t, t.flights[q]) && !AwaitsNode(t, t.flights[q])
  {
    var f, u := s.flights[q], Run(s, Unlock(s, q));
    UnlockedKeeps(s, q);
    SameTablesSameWriters(s, u, f);
    hide Inv, Run, Find, Unlock;
    if AwaitsNode(s, f) {
      PhaseSays(u, q);
      ProvisionedKeeps(u, q, f.request.call.nodeId, Actor(f.request).commonName, 0);
      hide Provisioning, Actor;
      Solo.RunOfConcat(s, Unlock(s, q), Provisioning(u, f.request.call.nodeId, Actor(f.request).commonName, 0));
    } else {
      assert Opening(s, q) == Unlock(s, q);
    }
  }

  lemma QuietKeepsCached(a: seq<Event>, b: seq<Event>, serial: nat)
    requires IsQuiet(a) && IsQuiet(b)
    ensures KeepsCached(a + b, serial)
  {
  }

  lemma WritersAre(s: System, q: nat, serial: nat)
    requires q in Writers(s, serial)
    ensures q in s.flights && Bears(s.flights[q].request, serial) && MayWrite(s, s.flights[q])
  {
  }

  lemma WriterCanStillWrite(s: System, q: nat, serial: nat)
    requires Inv(s) && q in Writers(s, serial)
    ensures CanStillWrite(s, q, serial)
  {
    hide Inv, Writers, Run, MayWrite, Bears, Opening, LockIsFree, AwaitsNode;
    hide Solo.Turns, WritesDuring, IsQuiet, KeepsCached;
    WritersAre(s, q, serial);
    var es, turns := Opening(s, q), Solo.Turns(q, 0, 5);
    OpeningReadies(s, q);
    TurnsWrite(Run(s, es), q, 0, 5, serial);
    WritesLater(s, es, turns, q, serial);
    OpeningIsQuiet(s, q);
    TurnsAreQuiet(q, 0, 5);
    QuietKeepsCached(es, turns, serial);
  }

  lemma OnlyWritersWrite(s: System, es: seq<Event>, q: nat, serial: nat)
    requires Inv(s) && serial in s.revoked && KeepsCached(es, serial) && WritesDuring(s, es, q, serial)
    ensures q in Writers(s, serial)
  {
    assert NoOthersWrite(s, serial, Writers(s, serial));
    hide Inv, NoOthersWrite, Writers;
    OnlyTheseWrite(s, es, serial, Writers(s, serial), q);
  }

  /** The cut-off, exactly. From a moment when a serial is cached, and for as long
      as it stays so, a request with it can still write a node row, in some
      interleaving, if and only if it has passed the check and its write is under
      way or not blocked by the tables. */
  lemma CutOff(s: System, q: nat, serial: nat)
    requires Inv(s) && serial in s.revoked
    ensures CanStillWrite(s, q, serial) <==> q in Writers(s, serial)
  {
    hide Inv, KeepsCached, WritesDuring, Writers;
    if CanStillWrite(s, q, serial) {
      var es: seq<Event> :| KeepsCached(es, serial) && WritesDuring(s, es, q, serial);
      OnlyWritersWrite(s, es, q, serial);
    }
    if q in Writers(s, serial) {
      WriterCanStillWrite(s, q, serial);
    }
  }

  /** And that happens: after any start, a certificate whose serial is cached two
      turns after its registration arrived still gets its node registered. */
  lemma RevokedStillRegisters(nodes: seq<NodeRow>, audit: seq<AuditRow>, r: Request, serial: nat, now: int)
    requires Bears(r, serial) && r.call.Register? && MayRegister(Actor(r), r.call.payload)
    requires Find(nodes, r.call.payload.nodeId).None?
    ensures var es := [Arrive(r)] + Solo.Turns(0, now, 2) + [Install({serial})];
      var s, t := Run(Start(nodes, audit, 0), es), Run(Start(nodes, audit, 0), es + Solo.Turns(0, now, 6));
      && serial in s.revoked && s.nodes == nodes
      && serial in t.revoked && t.nodes == nodes + [NewRow(r.call.payload, now)]
  {
    var s0 := Start(nodes, audit, 0);
    var s1 := Step(s0, Arrive(r));
    var s3 := Solo.Drive(s1, 0, now, 2);
    var s4 := Step(s3, Install({serial}));
    var es := [Arrive(r)] + Solo.Turns(0, now, 2);
    AdmittedInTwo(s1, 0, now);
    Solo.DriveIsRun(s1, 0, now, 2);
    assert es[1..] == Solo.Turns(0, now, 2);
    assert Run(s0, es) == s3;
    RunOne(s3, Install({serial}));
    hide Run, Solo.Drive, Bears, Authenticate, Find;
    Solo.RunOfConcat(s0, es, [Install({serial})]);
    Solo.RunOfConcat(s0, es + [Install({serial})], Solo.Turns(0, now, 6));
    Solo.FromAdmitted(s4, 0, now);
    Solo.DriveIsRun(s4, 0, now, 6);
  }

  lemma AdmittedInTwo(s: System, q: nat, now: int)
    requires q in s.flights && s.flights[q].phase.Received? && Authenticate(s.flights[q].request.headers).Known?
    requires !IsRevoked(Actor(s.flights[q].request), s.revoked)
    ensures Solo.Drive(s, q, now, 2) == Move(s, q, Admitted).(auth := s.auth + multiset{Accepted})
  {
    var t := Progress(s, q, now);
    assert Solo.Drive(s, q, now, 2) == Solo.Drive(t, q, now, 1) == Solo.Drive(Progress(t, q, now), q, now, 0);
    hide Authenticate, IsRevoked;
    assert Progress(t, q, now).flights == s.flights[q := Flight(s.flights[q].request, Admitted)];
  }
}
