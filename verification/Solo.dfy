/** The two models agree: a request that runs alone through the interleaved
    machine does what the serial specification says; and what two overlapping
    first beats do instead. */
module Solo {
  import opened Wrappers
  import opened Tables
  import opened Security
  import opened Requests
  import opened Interleaving
  import Controller
  import Traces
  import Safety
  import Activation

  function View(s: System): Controller.Store {
    Controller.Store(s.nodes, s.audit, s.counter, s.auth, s.revoked)
  }

  /** `n` turns for `q` and nobody else. */
  function Turns(q: nat, now: int, n: nat): seq<Event> {
    if n == 0 then [] else [Advance(q, now)] + Turns(q, now, n - 1)
  }

  function Drive(s: System, q: nat, now: int, n: nat): System
    decreases n
  {
    if n == 0 || q !in s.flights then s else Drive(Progress(s, q, now), q, now, n - 1)
  }

  lemma {:induction false} DriveIsRun(s: System, q: nat, now: int, n: nat)
    requires q in s.flights
    ensures Run(s, Turns(q, now, n)) == Drive(s, q, now, n)
    decreases n
  {
    hide Progress;
    if n > 0 {
      var es := Turns(q, now, n);
      assert es[0] == Advance(q, now) && es[1..] == Turns(q, now, n - 1);
      Safety.ProgressMovesOne(s, q, now);
      DriveIsRun(Progress(s, q, now), q, now, n - 1);
    }
  }

  /** From `s`, the request has finished as `t`. */
  ghost predicate Finishes(s: System, t: System, q: nat, reply: Response, nodes: seq<NodeRow>, entry: seq<AuditRow>) {
    && t.nodes == nodes && t.audit == s.audit + entry && t.counter == s.counter + Kinds(entry)
    && t.auth == s.auth && t.revoked == s.revoked && t.writer.None?
    && q in t.flights && t.flights[q].phase.Answered? && t.flights[q].phase.response == reply
  }

  lemma {:induction false} AnsweredStays(s: System, q: nat, now: int, n: nat)
    requires q in s.flights && s.flights[q].phase.Answered?
    ensures Drive(s, q, now, n) == s
    decreases n
  {
    if n > 0 {
      AnsweredStays(s, q, now, n - 1);
    }
  }

  lemma FromCommitting(s: System, q: nat, now: int, n: nat)
    requires q in s.flights && s.flights[q].phase.Committing? && Owns(s, q) && n >= 2
    ensures var t := Drive(s, q, now, n);
      && t.nodes == Applied(s.nodes, s.writer.value) && t.audit == s.audit + AsSeq(s.writer.value.event)
      && t.counter == s.counter && t.auth == s.auth && t.revoked == s.revoked && t.writer.None?
      && q in t.flights && t.flights[q].phase.Answered? && t.flights[q].phase.response == s.flights[q].phase.reply
  {
    var t1 := Progress(s, q, now);
    var t2 := Progress(t1, q, now);
    assert t2.flights[q].phase.Answered?;
    AnsweredStays(t2, q, now, n - 2);
    hide Progress;
    assert Drive(t1, q, now, n - 1) == t2;
  }

  lemma FromCounting(s: System, q: nat, now: int, n: nat)
    requires q in s.flights && s.flights[q].phase.Counting? && Owns(s, q) && s.writer.value.event.Some? && n >= 3
    ensures var w := s.writer.value;
      Finishes(s, Drive(s, q, now, n), q, s.flights[q].phase.reply, Applied(s.nodes, w), [w.event.value])
  {
    var t := Progress(s, q, now);
    assert Applied(s.nodes, t.writer.value) == Applied(s.nodes, s.writer.value);
    Controller.KindsOfOne(s.writer.value.event.value);
    FromCommitting(t, q, now, n - 1);
    assert Drive(s, q, now, n) == Drive(t, q, now, n - 1);
  }

  lemma FromRecording(s: System, q: nat, now: int, n: nat, insert: Option<NodeRow>)
    requires q in s.flights && s.flights[q].phase.Recording? && n >= 4
    requires if s.writer.None? then insert.None? else Owns(s, q) && s.writer.value.insert == insert
    ensures var p := s.flights[q].phase;
      var nodes := Applied(s.nodes, Txn(q, insert, p.update, Some(p.event), false));
      Finishes(s, Drive(s, q, now, n), q, p.reply, nodes, [p.event])
  {
    var p, t := s.flights[q].phase, Progress(s, q, now);
    FromCounting(t, q, now, n - 1);
    assert Applied(s.nodes, t.writer.value) == Applied(s.nodes, Txn(q, insert, p.update, Some(p.event), false));
    assert Drive(s, q, now, n) == Drive(t, q, now, n - 1);
  }

  lemma FromUpdating(s: System, q: nat, now: int, n: nat)
    requires q in s.flights && s.flights[q].phase.Updating? && s.writer.None? && n >= 3
    ensures var p := s.flights[q].phase;
      Finishes(s, Drive(s, q, now, n), q, p.reply, Applied(s.nodes, Txn(q, None, Some(p.change), None, false)), [])
  {
    var t := Progress(s, q, now);
    FromCommitting(t, q, now, n - 1);
    assert Drive(s, q, now, n) == Drive(t, q, now, n - 1);
  }

  lemma FromInserting(s: System, q: nat, now: int, n: nat)
    requires q in s.flights && s.flights[q].phase.Inserting? && s.writer.None? && n >= 5
    requires var r := s.flights[q].request;
      r.call.Register? && Find(s.nodes, r.call.payload.nodeId).None?
    ensures var r := s.flights[q].request;
      Finishes(s, Drive(s, q, now, n), q, Created, s.nodes + [NewRow(r.call.payload, now)],
               [RegisterEvent(Actor(r).commonName, r.call.payload, now)])
  {
    var r, t := s.flights[q].request, Progress(s, q, now);
    FromRecording(t, q, now, n - 1, t.writer.value.insert);
    assert Drive(s, q, now, n) == Drive(t, q, now, n - 1);
  }

  /** What the path operation does on its own, as the serial specification says. */
  ghost predicate Served(s: System, t: System, q: nat, now: int)
    requires q in s.flights
  {
    var r := s.flights[q].request;
    var reply := Decide(s.nodes, Actor(r), r.call);
    Finishes(s, t, q, reply, Controller.NodesAfter(s.nodes, r.call, reply, now),
             AsSeq(EventFor(Actor(r), r.call, reply, now)))
  }

  lemma RegisterAlone(s: System, q: nat, now: int)
    requires q in s.flights && s.flights[q].phase.Admitted? && s.writer.None? && s.flights[q].request.call.Register?
    ensures Served(s, Drive(Enter(s, q, now), q, now, 5), q, now)
  {
    var t := Enter(s, q, now);
    hide Drive, Authenticate, Find;
    var reply := Decide(s.nodes, Actor(s.flights[q].request), s.flights[q].request.call);
    if reply.Created? {
      FromInserting(t, q, now, 5);
    } else if reply.ForeignRegister? {
      FromRecording(t, q, now, 5, None);
      assert Applied(s.nodes, Txn(q, None, None, Some(t.flights[q].phase.event), false)) == s.nodes;
    } else {
      AnsweredStays(t, q, now, 5);
    }
  }

  lemma BeatAlone(s: System, q: nat, now: int)
    requires q in s.flights && s.flights[q].phase.Admitted? && s.writer.None? && s.flights[q].request.call.Beat?
    ensures Served(s, Drive(Enter(s, q, now), q, now, 5), q, now)
  {
    var t := Enter(s, q, now);
    hide Drive, Authenticate, Find;
    var reply := Decide(s.nodes, Actor(s.flights[q].request), s.flights[q].request.call);
    if reply.Activated? {
      FromRecording(t, q, now, 5, None);
    } else if reply.Beaten? {
      FromUpdating(t, q, now, 5);
    } else if reply.ForeignBeat? {
      FromRecording(t, q, now, 5, None);
      assert Applied(s.nodes, Txn(q, None, None, Some(t.flights[q].phase.event), false)) == s.nodes;
    } else {
      AnsweredStays(t, q, now, 5);
    }
  }

  lemma ReadAlone(s: System, q: nat, now: int)
    requires q in s.flights && s.flights[q].phase.Admitted? && s.writer.None?
    requires s.flights[q].request.call.GetNode? || s.flights[q].request.call.ListRows?
    ensures Served(s, Drive(Enter(s, q, now), q, now, 5), q, now)
  {
    hide Drive, Authenticate, Find;
    AnsweredStays(Enter(s, q, now), q, now, 5);
  }

  lemma FromAdmitted(s: System, q: nat, now: int)
    requires q in s.flights && s.flights[q].phase.Admitted? && s.writer.None?
    ensures Served(s, Drive(s, q, now, 6), q, now)
  {
    hide Enter, Served;
    assert Drive(s, q, now, 6) == Drive(Progress(s, q, now), q, now, 5);
    match s.flights[q].request.call
    case Register(_) => RegisterAlone(s, q, now);
    case Beat(_) => BeatAlone(s, q, now);
    case _ => ReadAlone(s, q, now);
  }

  /** A request whose turns nobody interrupts ends exactly as `Serve` says, with
      the response `Respond` gives, and leaves no transaction open. */
  lemma SoloRunIsServe(s: System, r: Request, now: int)
    requires s.writer.None?
    ensures var t := Run(s, [Arrive(r)] + Turns(s.next, now, 8));
      && View(t) == Controller.Serve(View(s), r, now) && t.writer.None?
      && s.next in t.flights && t.flights[s.next].phase.Answered?
      && t.flights[s.next].phase.response == Controller.Respond(View(s), r)
  {
    var q, es := s.next, [Arrive(r)] + Turns(s.next, now, 8);
    var t0 := Step(s, Arrive(r));
    assert es[1..] == Turns(q, now, 8);
    DriveIsRun(t0, q, now, 8);
    SoloDrive(s, t0, q, r, now);
  }

  lemma SoloDrive(s: System, t0: System, q: nat, r: Request, now: int)
    requires s.writer.None? && q == s.next && t0 == Step(s, Arrive(r))
    ensures var t := Drive(t0, q, now, 8);
      && View(t) == Controller.Serve(View(s), r, now) && t.writer.None?
      && q in t.flights && t.flights[q].phase.Answered?
      && t.flights[q].phase.response == Controller.Respond(View(s), r)
  {
    var t1 := ReadIdentity(t0, q);
    assert t1 == Progress(t0, q, now);
    assert Drive(t0, q, now, 8) == Drive(t1, q, now, 7);
    hide Drive, Controller.Serve, Controller.Respond;
    match Authenticate(r.headers)
    case Refused(why) =>
      AnsweredStays(t1, q, now, 7);
      Controller.ServeRefused(View(s), r, now, why);
    case Known(id) => SoloKnown(s, t1, q, r, now, id);
  }

  lemma SoloKnown(s: System, t1: System, q: nat, r: Request, now: int, id: Identity)
    requires s.writer.None? && q in t1.flights && t1.flights[q] == Flight(r, Identified)
    requires t1 == s.(flights := t1.flights, next := t1.next, auth := s.auth + multiset{Accepted})
    requires Authenticate(r.headers) == Known(id)
    ensures var t := Drive(t1, q, now, 7);
      && View(t) == Controller.Serve(View(s), r, now) && t.writer.None?
      && q in t.flights && t.flights[q].phase.Answered?
      && t.flights[q].phase.response == Controller.Respond(View(s), r)
  {
    var t2 := CheckRevocation(t1, q, now);
    assert t2 == Progress(t1, q, now);
    assert Drive(t1, q, now, 7) == Drive(t2, q, now, 6);
    hide Drive, Controller.Serve, Controller.Respond, Controller.NodesAfter;
    hide Authenticate, Decide, EventFor, RevocationEvent;
    if IsRevoked(id, s.revoked) {
      FromRecording(t2, q, now, 6, None);
      Controller.KindsOfOne(RevocationEvent(id.commonName, id.serial.value, now));
      RevocationKind(id.commonName, id.serial.value, now);
      Controller.ServeRevoked(View(s), r, now, id);
    } else {
      FromAdmitted(t2, q, now);
      Controller.ServeLive(View(s), r, now, id);
    }
  }

  lemma RevocationKind(actor: string, serial: nat, now: int)
    ensures KindOf(RevocationEvent(actor, serial, now)) == Kind(AuthFailure, Rejected)
  {
  }

  /** A new cache and a restart do the same in both models. */
  lemma OtherEventsAgree(s: System, serials: set<nat>)
    ensures View(Step(s, Install(serials))) == Traces.Step(View(s), Traces.CrlInstalled(serials))
    ensures View(Step(s, Restart)) == Traces.Step(View(s), Traces.Restart)
    ensures Step(s, Restart).flights == map[] && Step(s, Restart).writer.None?
    ensures View(Step(s, Restart)) == Controller.Store(s.nodes, s.audit, multiset{}, multiset{}, {})
  {
  }

  // ---------- two overlapping first beats ----------

  lemma {:induction false} DriveKeepsOthers(s: System, q: nat, now: int, n: nat, k: nat)
    requires q in s.flights && k in s.flights && k != q
    ensures k in Drive(s, q, now, n).flights && Drive(s, q, now, n).flights[k] == s.flights[k]
    ensures q in Drive(s, q, now, n).flights
    decreases n
  {
    hide Progress;
    if n > 0 {
      Safety.ProgressMovesOne(s, q, now);
      DriveKeepsOthers(Progress(s, q, now), q, now, n - 1, k);
    }
  }

  lemma {:induction false} RunOfConcat(s: System, es: seq<Event>, more: seq<Event>)
    ensures Run(s, es + more) == Run(Run(s, es), more)
    decreases |es|
  {
    hide Step;
    if es == [] {
      assert es + more == more;
    } else {
      assert (es + more)[1..] == es[1..] + more;
      RunOfConcat(Step(s, es[0]), es[1..], more);
    }
  }

  /** `r` is a beat by the owner of the onboarding node in row `i`, whose
      certificate is not known to be revoked. */
  ghost predicate IsFirstBeat(s: System, r: Request, i: nat) {
    && Authenticate(r.headers).Known? && !IsRevoked(Actor(r), s.revoked) && r.call.Beat?
    && Find(s.nodes, r.call.nodeId) == Some(i) && i < |s.nodes|
    && s.nodes[i].base.commonName == Actor(r).commonName && s.nodes[i].base.state == Onboarding
  }

  function FirstBeatEvent(r: Request, now: int): AuditRow
    requires r.call.Beat?
  {
    StateChangeEvent(Actor(r).commonName, r.call.nodeId, now)
  }

  /** Three turns take a first beat to the point where it is about to record. */
  lemma FirstBeatReads(s: System, q: nat, now: int, i: nat)
    requires q in s.flights && s.flights[q].phase.Received? && IsFirstBeat(s, s.flights[q].request, i)
    ensures Drive(s, q, now, 3)
         == Move(s, q, Recording(FirstBeatEvent(s.flights[q].request, now), Some(Update(i, true, now)), Activated))
            .(auth := s.auth + multiset{Accepted})
  {
    var r := s.flights[q].request;
    var t1 := Progress(s, q, now);
    var t2 := Progress(t1, q, now);
    var t3 := Progress(t2, q, now);
    assert Drive(s, q, now, 3) == Drive(t1, q, now, 2);
    assert Drive(t1, q, now, 2) == Drive(t2, q, now, 1);
    assert Drive(t2, q, now, 1) == Drive(t3, q, now, 0);
    hide Authenticate, Find, IsRevoked;
    assert t3.flights == s.flights[q := Flight(r, t3.flights[q].phase)];
  }

  /** Both beats read the row, then one and then the other records and commits. */
  function Overlapping(a: nat, b: nat, readA: int, readB: int, writeA: int, writeB: int): seq<Event> {
    Turns(a, readA, 3) + Turns(b, readB, 3) + Turns(a, writeA, 4) + Turns(b, writeB, 4)
  }

  lemma OverlappingIsDrive(s: System, a: nat, b: nat, readA: int, readB: int, writeA: int, writeB: int)
    requires a in s.flights && b in s.flights && a != b
    ensures Run(s, Overlapping(a, b, readA, readB, writeA, writeB))
         == Drive(Drive(Drive(Drive(s, a, readA, 3), b, readB, 3), a, writeA, 4), b, writeB, 4)
  {
    hide Drive, Run, Turns;
    var read := Turns(a, readA, 3) + Turns(b, readB, 3);
    RunOfConcat(s, read + Turns(a, writeA, 4), Turns(b, writeB, 4));
    RunOfConcat(s, read, Turns(a, writeA, 4));
    RunOfConcat(s, Turns(a, readA, 3), Turns(b, readB, 3));
    var s1 := Drive(s, a, readA, 3);
    var s2 := Drive(s1, b, readB, 3);
    var s3 := Drive(s2, a, writeA, 4);
    DriveKeepsOthers(s, a, readA, 3, b);
    DriveKeepsOthers(s1, b, readB, 3, a);
    DriveKeepsOthers(s2, a, writeA, 4, b);
    DriveIsRun(s, a, readA, 3);
    DriveIsRun(s1, b, readB, 3);
    DriveIsRun(s2, a, writeA, 4);
    DriveIsRun(s3, b, writeB, 4);
  }

  lemma BothRead(s: System, a: nat, b: nat, i: nat, readA: int, readB: int)
    requires a in s.flights && b in s.flights && a != b && s.writer.None?
    requires s.flights[a].phase.Received? && IsFirstBeat(s, s.flights[a].request, i)
    requires s.flights[b].phase.Received? && IsFirstBeat(s, s.flights[b].request, i)
    ensures var t := Drive(Drive(s, a, readA, 3), b, readB, 3);
      var ra, rb := s.flights[a].request, s.flights[b].request;
      && a in t.flights && b in t.flights && t.writer.None? && t.audit == s.audit
      && t.flights[a].phase == Recording(FirstBeatEvent(ra, readA), Some(Update(i, true, readA)), Activated)
      && t.flights[b].phase == Recording(FirstBeatEvent(rb, readB), Some(Update(i, true, readB)), Activated)
  {
    hide Drive, Authenticate, Find, FirstBeatEvent;
    FirstBeatReads(s, a, readA, i);
    FirstBeatReads(Drive(s, a, readA, 3), b, readB, i);
  }

  lemma BothRecord(s: System, a: nat, b: nat, writeA: int, writeB: int)
    requires a in s.flights && b in s.flights && a != b && s.writer.None?
    requires s.flights[a].phase.Recording? && s.flights[b].phase.Recording?
    ensures Drive(Drive(s, a, writeA, 4), b, writeB, 4).audit
         == s.audit + [s.flights[a].phase.event] + [s.flights[b].phase.event]
  {
    hide Drive;
    FromRecording(s, a, writeA, 4, None);
    DriveKeepsOthers(s, a, writeA, 4, b);
    FromRecording(Drive(s, a, writeA, 4), b, writeB, 4, None);
  }

  /** "One state change per first beat" is a property of serial handling only:
      any two first beats of a node, from any two requests, that both read the row
      before either commits both log. */
  lemma OverlappingFirstBeatsBothLog(
      s: System, a: nat, b: nat, i: nat, readA: int, readB: int, writeA: int, writeB: int)
    requires a in s.flights && b in s.flights && a != b && s.writer.None?
    requires s.flights[a].phase.Received? && IsFirstBeat(s, s.flights[a].request, i)
    requires s.flights[b].phase.Received? && IsFirstBeat(s, s.flights[b].request, i)
    ensures Run(s, Overlapping(a, b, readA, readB, writeA, writeB)).audit
         == s.audit + [FirstBeatEvent(s.flights[a].request, readA)] + [FirstBeatEvent(s.flights[b].request, readB)]
  {
    hide Drive, Run, Overlapping, IsFirstBeat, FirstBeatEvent;
    OverlappingIsDrive(s, a, b, readA, readB, writeA, writeB);
    BothRead(s, a, b, i, readA, readB);
    BothRecord(Drive(Drive(s, a, readA, 3), b, readB, 3), a, b, writeA, writeB);
  }

  /** So whatever a freshly started controller's tables hold, any onboarding node
      in them can have its activation logged twice. */
  lemma TwoRecordsFromStart(
      nodes: seq<NodeRow>, audit: seq<AuditRow>, ra: Request, rb: Request, i: nat,
      readA: int, readB: int, writeA: int, writeB: int)
    requires IsFirstBeat(Start(nodes, audit, 0), ra, i) && IsFirstBeat(Start(nodes, audit, 0), rb, i)
    ensures var es := [Arrive(ra), Arrive(rb)] + Overlapping(0, 1, readA, readB, writeA, writeB);
      var nodeId := nodes[i].base.nodeId;
      Activation.Activations(Run(Start(nodes, audit, 0), es).audit, nodeId) == Activation.Activations(audit, nodeId) + 2
  {
    var s := Start(nodes, audit, 0);
    var arrivals, rest := [Arrive(ra), Arrive(rb)], Overlapping(0, 1, readA, readB, writeA, writeB);
    var t := Step(Step(s, Arrive(ra)), Arrive(rb));
    assert Run(s, arrivals) == t by {
      assert arrivals[1..] == [Arrive(rb)] && [Arrive(rb)][1..] == [];
      assert Run(Step(s, Arrive(ra)), [Arrive(rb)]) == Run(t, []);
    }
    assert t.flights == map[0 := Flight(ra, Received), 1 := Flight(rb, Received)];
    hide Run, Overlapping;
    RunOfConcat(s, arrivals, rest);
    OverlappingFirstBeatsBothLog(t, 0, 1, i, readA, readB, writeA, writeB);
    var ea, eb := FirstBeatEvent(ra, readA), FirstBeatEvent(rb, readB);
    Activation.ActivationsOfAppend(audit, ea, nodes[i].base.nodeId);
    Activation.ActivationsOfAppend(audit + [ea], eb, nodes[i].base.nodeId);
  }
}
