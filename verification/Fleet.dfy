/** Node agents composed with the interleaved controller
    (node-agent/app/heartbeat.py, node-agent/app/http_client.py). */
module Fleet {
  import opened Wrappers
  import opened Tables
  import opened Security
  import opened Requests
  import opened Interleaving
  import opened Invariants
  import opened Safety
  import Heartbeats

  /** Where an agent is. `confirmed` is the status its registration got. */
  datatype AgentPhase =
    | Trying(attempt: nat)
    | AwaitingRegister(q: nat, attempt: nat)
    | Ready(confirmed: nat)
    | AwaitingBeat(q: nat, confirmed: nat)
    | Crashed

  datatype Agent = Agent(
    nodeId: string,
    commonName: string,
    role: string,
    ipAddress: Option<string>,
    phase: AgentPhase)

  /** The registration payload carries no state, so the default applies. */
  function Payload(a: Agent): NodeBase {
    NodeBase(a.nodeId, a.commonName, a.role, Onboarding, a.ipAddress, None)
  }

  /** `register` returns on 201, 409 and any other 2xx, and raises on the rest. */
  predicate RegisterReturns(status: nat) {
    status == 201 || status == 409 || 200 <= status < 300
  }

  /** A heartbeat that was sent: by whom, and what its registration had got. */
  datatype SentBeat = SentBeat(agent: nat, confirmed: nat)

  /** `sent` is history. */
  datatype World = World(sys: System, agents: seq<Agent>, sent: map<nat, SentBeat>)

  datatype WorldEvent =
    | Controller(event: Event)              // any step of the controller, any request of any other client
    | SendRegister(a: nat, headers: Headers)
    | SendBeat(a: nat, headers: Headers)
    | Hear(a: nat)                          // the response arrives
    | Lose(a: nat)                          // the call fails without the controller's response
    | Reboot(a: nat)

  function Enters(w: World, a: nat, phase: AgentPhase): World
    requires a < |w.agents|
  {
    w.(agents := w.agents[a := w.agents[a].(phase := phase)])
  }

  /** A failed attempt: retry until the tenth, then the agent gives up. */
  function Retry(attempt: nat): AgentPhase {
    if attempt < Heartbeats.ATTEMPTS then Trying(attempt + 1) else Crashed
  }

  function WorldStep(w: World, e: WorldEvent): World {
    match e
    case Controller(event) => w.(sys := Step(w.sys, event))
    case SendRegister(a, headers) =>
      if a < |w.agents| && w.agents[a].phase.Trying?
      then Enters(w, a, AwaitingRegister(w.sys.next, w.agents[a].phase.attempt))
           .(sys := Step(w.sys, Arrive(Request(headers, Register(Payload(w.agents[a]))))))
      else w
    case SendBeat(a, headers) =>
      if a < |w.agents| && w.agents[a].phase.Ready?
      then Enters(w, a, AwaitingBeat(w.sys.next, w.agents[a].phase.confirmed))
           .(sys := Step(w.sys, Arrive(Request(headers, Beat(w.agents[a].nodeId)))),
             sent := w.sent[w.sys.next := SentBeat(a, w.agents[a].phase.confirmed)])
      else w
    case Hear(a) =>
      if a < |w.agents| then
        match w.agents[a].phase
        case AwaitingRegister(q, attempt) =>
          if q in w.sys.flights && w.sys.flights[q].phase.Answered? then
            var status := w.sys.flights[q].phase.response.Status();
            Enters(w, a, if RegisterReturns(status) then Ready(status) else Retry(attempt))
          else w
        case AwaitingBeat(q, confirmed) =>
          if q in w.sys.flights && w.sys.flights[q].phase.Answered? then Enters(w, a, Ready(confirmed)) else w
        case _ => w
      else w
    case Lose(a) =>
      if a < |w.agents| then
        match w.agents[a].phase
        case AwaitingRegister(_, attempt) => Enters(w, a, Retry(attempt))
        case AwaitingBeat(_, confirmed) => Enters(w, a, Ready(confirmed))
        case _ => w
      else w
    case Reboot(a) => if a < |w.agents| then Enters(w, a, Trying(1)) else w
  }

  function WorldRun(w: World, es: seq<WorldEvent>): World
    decreases |es|
  {
    if es == [] then w else WorldRun(WorldStep(w, es[0]), es[1..])
  }

  // ---------- the invariant ----------

  ghost predicate Known404(phase: Phase) {
    match phase
    case Recording(_, _, reply) => reply == NotFound
    case Counting(reply) => reply == NotFound
    case Updating(_, reply) => reply == NotFound
    case Committing(reply) => reply == NotFound
    case Closing(reply, _) => reply == NotFound
    case Answered(response, reply, _) => reply == NotFound || response == NotFound
    case _ => false
  }

  /** A registered agent's beat: its node is in the table and it is not headed for 404. */
  ghost predicate BeatOk(s: System, q: nat, nodeId: string) {
    && Find(s.nodes, nodeId).Some?
    && q < s.next
    && (q in s.flights ==> s.flights[q].request.call == Beat(nodeId) && !Known404(s.flights[q].phase))
  }

  ghost predicate AgentOk(w: World, a: Agent) {
    match a.phase
    case AwaitingRegister(q, _) =>
      q < w.sys.next && (q in w.sys.flights ==> w.sys.flights[q].request.call == Register(Payload(a)))
    case Ready(confirmed) => (confirmed == 201 || confirmed == 409) && Find(w.sys.nodes, a.nodeId).Some?
    case AwaitingBeat(_, confirmed) => (confirmed == 201 || confirmed == 409) && Find(w.sys.nodes, a.nodeId).Some?
    case _ => true
  }

  ghost predicate SentOk(w: World, q: nat, sent: SentBeat) {
    && sent.agent < |w.agents| && (sent.confirmed == 201 || sent.confirmed == 409)
    && BeatOk(w.sys, q, w.agents[sent.agent].nodeId)
  }

  ghost predicate WorldInv(w: World) {
    && Inv(w.sys)
    && (forall i :: 0 <= i < |w.agents| ==> AgentOk(w, w.agents[i]))
    && (forall q :: q in w.sent ==> SentOk(w, q, w.sent[q]))
  }

  // ---------- the controller's side ----------

  lemma EnterAvoids404(s: System, q: nat, now: int)
    requires q in s.flights && s.flights[q].request.call.Beat? && Find(s.nodes, s.flights[q].request.call.nodeId).Some?
    ensures q in Enter(s, q, now).flights && !Known404(Enter(s, q, now).flights[q].phase)
  {
    hide Authenticate, Find, StateChangeEvent, ForeignRegisterEvent, ForeignBeatEvent, Actor;
  }

  lemma CommitAvoids404(s: System, q: nat, reply: Response)
    requires q in s.flights && Owns(s, q) && reply != NotFound
    ensures q in Commit(s, q, reply).flights && !Known404(Commit(s, q, reply).flights[q].phase)
  {
    hide Applied;
  }

  lemma ProgressAvoids404(s: System, q: nat, now: int)
    requires q in s.flights && s.flights[q].request.call.Beat? && Find(s.nodes, s.flights[q].request.call.nodeId).Some?
    requires !Known404(s.flights[q].phase)
    ensures q in Progress(s, q, now).flights && !Known404(Progress(s, q, now).flights[q].phase)
  {
    hide Authenticate, Find, IsRevoked, Actor, RevocationEvent, RegisterEvent, NewRow;
    match s.flights[q].phase
    case Admitted => hide Enter; EnterAvoids404(s, q, now);
    case Committing(reply) => hide Commit; if Owns(s, q) { CommitAvoids404(s, q, reply); }
    case Received => hide Enter, Commit;
    case Identified => hide Enter, Commit;
    case Inserting => hide Enter, Commit;
    case _ => hide Enter, Commit, InsertNode, ReadIdentity, CheckRevocation;
  }

  lemma StepKeepsRows(s: System, e: Event, nodeId: string)
    requires Inv(s) && Find(s.nodes, nodeId).Some?
    ensures Find(Step(s, e).nodes, nodeId).Some?
  {
    StepEvolves(s, e);
    hide Step, Inv;
    FoundStaysFound(s.nodes, Step(s, e).nodes, nodeId);
  }

  lemma AbandonAvoids404(s: System, k: nat, q: nat)
    requires k in s.flights && q in s.flights && !Known404(s.flights[q].phase)
    ensures q in Abandon(s, k).flights && !Known404(Abandon(s, k).flights[q].phase)
    ensures Abandon(s, k).flights[q].request == s.flights[q].request
  {
    hide Uncommitted;
  }

  lemma AbandonKeepsRequests(s: System, k: nat)
    requires k in s.flights
    ensures Abandon(s, k).flights.Keys == s.flights.Keys && Abandon(s, k).next == s.next
    ensures forall q :: q in s.flights ==> Abandon(s, k).flights[q].request == s.flights[q].request
  {
    hide Uncommitted;
  }

  lemma StepKeepsBeat(s: System, e: Event, q: nat, nodeId: string)
    requires Inv(s) && BeatOk(s, q, nodeId)
    ensures BeatOk(Step(s, e), q, nodeId)
  {
    StepKeepsRows(s, e, nodeId);
    hide Inv, Find, Progress, Abandon, Known404;
    match e
    case Advance(k, now) =>
      if k in s.flights {
        ProgressMovesOne(s, k, now);
        ProgressKeepsNext(s, k, now);
        if k == q {
          ProgressAvoids404(s, q, now);
        }
      }
    case Fail(k) =>
      if k in s.flights {
        AbandonKeepsRequests(s, k);
        if q in s.flights {
          AbandonAvoids404(s, k, q);
        }
      }
    case _ =>
  }

  lemma StepKeepsRequest(s: System, e: Event, q: nat)
    requires Inv(s) && q < s.next
    ensures q < Step(s, e).next
    ensures q in Step(s, e).flights ==> q in s.flights && Step(s, e).flights[q].request == s.flights[q].request
  {
    hide Inv, Progress, Abandon;
    match e
    case Advance(k, now) =>
      if k in s.flights {
        ProgressMovesOne(s, k, now);
        ProgressKeepsNext(s, k, now);
      }
    case Fail(k) =>
      if k in s.flights {
        AbandonKeepsRequests(s, k);
      }
    case _ =>
  }

  // ---------- the steps of the world ----------

  lemma SystemStepKeepsWorld(w: World, t: World, e: Event)
    requires WorldInv(w) && t == w.(sys := Step(w.sys, e))
    ensures WorldInv(t)
  {
    hide Step, Inv, BeatOk;
    StepKeepsInv(w.sys, e);
    forall i | 0 <= i < |t.agents| ensures AgentOk(t, t.agents[i]) {
      var a := w.agents[i];
      assert AgentOk(w, a);
      if a.phase.AwaitingRegister? {
        StepKeepsRequest(w.sys, e, a.phase.q);
      } else if a.phase.Ready? || a.phase.AwaitingBeat? {
        StepKeepsRows(w.sys, e, a.nodeId);
      }
    }
    forall q | q in t.sent ensures SentOk(t, q, t.sent[q]) {
      assert SentOk(w, q, w.sent[q]);
      StepKeepsBeat(w.sys, e, q, w.agents[w.sent[q].agent].nodeId);
    }
  }

  /** An agent changes phase and nothing else happens. */
  lemma EntersKeepsWorld(w: World, a: nat, phase: AgentPhase)
    requires WorldInv(w) && a < |w.agents|
    requires AgentOk(w, w.agents[a].(phase := phase))
    ensures WorldInv(Enters(w, a, phase))
  {
    hide Inv, BeatOk;
    var t := Enters(w, a, phase);
    forall i | 0 <= i < |t.agents| ensures AgentOk(t, t.agents[i]) {
      assert AgentOk(w, w.agents[i]);
    }
    forall q | q in t.sent ensures SentOk(t, q, t.sent[q]) {
      assert SentOk(w, q, w.sent[q]);
    }
  }

  /** What the controller can answer a registration with. */
  lemma RegisterAnswer(s: System, q: nat)
    requires Inv(s) && q in s.flights && s.flights[q].phase.Answered? && s.flights[q].request.call.Register?
    ensures var status := s.flights[q].phase.response.Status();
      RegisterReturns(status) ==>
        (status == 201 || status == 409) && Find(s.nodes, s.flights[q].request.call.payload.nodeId).Some?
  {
    assert FlightOk(s, q, s.flights[q]);
  }

  lemma HearKeepsWorld(w: World, a: nat)
    requires WorldInv(w)
    ensures WorldInv(WorldStep(w, Hear(a)))
  {
    if a < |w.agents| {
      assert AgentOk(w, w.agents[a]);
      var phase := w.agents[a].phase;
      if phase.AwaitingRegister? && phase.q in w.sys.flights && w.sys.flights[phase.q].phase.Answered? {
        RegisterAnswer(w.sys, phase.q);
        var status := w.sys.flights[phase.q].phase.response.Status();
        EntersKeepsWorld(w, a, if RegisterReturns(status) then Ready(status) else Retry(phase.attempt));
      } else if phase.AwaitingBeat? && phase.q in w.sys.flights && w.sys.flights[phase.q].phase.Answered? {
        EntersKeepsWorld(w, a, Ready(phase.confirmed));
      }
    }
  }

  lemma SendKeepsWorld(w: World, e: WorldEvent)
    requires WorldInv(w) && (e.SendRegister? || e.SendBeat?)
    ensures WorldInv(WorldStep(w, e))
  {
    hide Inv, BeatOk, Step;
    var a := e.a;
    if a < |w.agents| && e.SendRegister? && w.agents[a].phase.Trying? {
      var arrive := Arrive(Request(e.headers, Register(Payload(w.agents[a]))));
      var u := w.(sys := Step(w.sys, arrive));
      SystemStepKeepsWorld(w, u, arrive);
      ArrivalIs(w.sys, arrive.request);
      EntersKeepsWorld(u, a, AwaitingRegister(w.sys.next, w.agents[a].phase.attempt));
    } else if a < |w.agents| && e.SendBeat? && w.agents[a].phase.Ready? {
      var q, arrive := w.sys.next, Arrive(Request(e.headers, Beat(w.agents[a].nodeId)));
      var u := w.(sys := Step(w.sys, arrive));
      assert AgentOk(w, w.agents[a]);
      SystemStepKeepsWorld(w, u, arrive);
      ArrivalIs(w.sys, arrive.request);
      assert AgentOk(u, u.agents[a]);
      var v := u.(sent := w.sent[q := SentBeat(a, w.agents[a].phase.confirmed)]);
      assert SentOk(v, q, v.sent[q]) by {
        ArrivedBeatOk(u.sys, q, w.agents[a].nodeId);
      }
      assert WorldInv(v) by {
        forall i | 0 <= i < |v.agents| ensures AgentOk(v, v.agents[i]) { assert AgentOk(u, u.agents[i]); }
        forall k | k in v.sent ensures SentOk(v, k, v.sent[k]) { if k != q { assert SentOk(u, k, u.sent[k]); } }
      }
      EntersKeepsWorld(v, a, AwaitingBeat(q, w.agents[a].phase.confirmed));
    }
  }

  lemma ArrivalIs(s: System, r: Request)
    ensures var t := Step(s, Arrive(r));
      t.next == s.next + 1 && s.next in t.flights && t.flights[s.next] == Flight(r, Received) && t.nodes == s.nodes
  {
  }

  lemma ArrivedBeatOk(s: System, q: nat, nodeId: string)
    requires q < s.next && q in s.flights && s.flights[q].request.call == Beat(nodeId) && s.flights[q].phase.Received?
    requires Find(s.nodes, nodeId).Some?
    ensures BeatOk(s, q, nodeId)
  {
  }

  lemma WorldStepKeepsInv(w: World, e: WorldEvent)
    requires WorldInv(w)
    ensures WorldInv(WorldStep(w, e))
  {
    match e
    case Controller(event) => SystemStepKeepsWorld(w, WorldStep(w, e), event);
    case SendRegister(_, _) => SendKeepsWorld(w, e);
    case SendBeat(_, _) => SendKeepsWorld(w, e);
    case Hear(a) => HearKeepsWorld(w, a);
    case Lose(a) =>
      if a < |w.agents| {
        assert AgentOk(w, w.agents[a]);
        var phase := w.agents[a].phase;
        if phase.AwaitingRegister? {
          EntersKeepsWorld(w, a, Retry(phase.attempt));
        } else if phase.AwaitingBeat? {
          EntersKeepsWorld(w, a, Ready(phase.confirmed));
        }
      }
    case Reboot(a) => if a < |w.agents| { EntersKeepsWorld(w, a, Trying(1)); }
  }

  lemma {:induction false} WorldRunKeepsInv(w: World, es: seq<WorldEvent>)
    requires WorldInv(w)
    ensures WorldInv(WorldRun(w, es))
    decreases |es|
  {
    hide WorldStep, WorldInv;
    if es != [] {
      WorldStepKeepsInv(w, es[0]);
      WorldRunKeepsInv(WorldStep(w, es[0]), es[1..]);
    }
  }

  /** Whatever the interleaving, the losses, the reboots and the other clients:
      every heartbeat an agent sends was preceded by a registration answered 201
      or 409, and is never answered 404. */
  lemma RegisteredBeforeBeatingAndNever404(
      nodes: seq<NodeRow>, audit: seq<AuditRow>, agents: seq<Agent>, es: seq<WorldEvent>)
    requires Distinct(nodes) && Ids(nodes) == RegisteredIds(audit)
    requires forall i :: 0 <= i < |agents| ==> agents[i].phase == Trying(1)
    ensures var t := WorldRun(World(Start(nodes, audit, 0), agents, map[]), es);
      forall q :: q in t.sent ==>
        && (t.sent[q].confirmed == 201 || t.sent[q].confirmed == 409)
        && (q in t.sys.flights && t.sys.flights[q].phase.Answered? ==> t.sys.flights[q].phase.response.Status() != 404)
  {
    var w := World(Start(nodes, audit, 0), agents, map[]);
    StartIsInv(nodes, audit, 0);
    assert WorldInv(w) by { hide Inv, Start; }
    hide WorldRun, Inv, Start, TablesOk, AgentOk, BeatOk;
    WorldRunKeepsInv(w, es);
    var t := WorldRun(w, es);
    forall q | q in t.sent
      ensures t.sent[q].confirmed == 201 || t.sent[q].confirmed == 409
      ensures q in t.sys.flights && t.sys.flights[q].phase.Answered? ==> t.sys.flights[q].phase.response.Status() != 404
    {
      assert SentOk(t, q, t.sent[q]);
      BeatGetsNo404(t.sys, q, t.agents[t.sent[q].agent].nodeId);
    }
  }

  lemma BeatGetsNo404(s: System, q: nat, nodeId: string)
    requires Inv(s) && BeatOk(s, q, nodeId)
    ensures q in s.flights && s.flights[q].phase.Answered? ==> s.flights[q].phase.response.Status() != 404
  {
    hide Inv;
  }

  // ---------- what one agent does ----------

  /** An agent registers as itself, as onboarding, and beats for itself. */
  lemma SendsItself(w: World, a: nat, headers: Headers)
    requires a < |w.agents|
    ensures var q, agent := w.sys.next, w.agents[a];
      && (agent.phase.Trying? ==>
            var t := WorldStep(w, SendRegister(a, headers)).sys;
            && q in t.flights && t.flights[q].request.headers == headers
            && t.flights[q].request.call
               == Register(NodeBase(agent.nodeId, agent.commonName, agent.role, Onboarding, agent.ipAddress, None)))
      && (agent.phase.Ready? ==>
            var t := WorldStep(w, SendBeat(a, headers)).sys;
            q in t.flights && t.flights[q].request == Request(headers, Beat(agent.nodeId)))
      && (!agent.phase.Ready? ==> WorldStep(w, SendBeat(a, headers)) == w)
  {
  }

  /** It starts to beat exactly on 201, 409 or another success; any other answer
      counts as a failed attempt. */
  lemma HearsRegistration(w: World, a: nat)
    requires a < |w.agents| && w.agents[a].phase.AwaitingRegister?
    requires w.agents[a].phase.q in w.sys.flights && w.sys.flights[w.agents[a].phase.q].phase.Answered?
    ensures var attempt := w.agents[a].phase.attempt;
      var status := w.sys.flights[w.agents[a].phase.q].phase.response.Status();
      WorldStep(w, Hear(a)).agents[a].phase
      == if status == 409 || 200 <= status <= 299 then Ready(status)
         else if attempt < 10 then Trying(attempt + 1) else Crashed
  {
  }

  /** A heartbeat's answer, or its loss, never stops the agent: it beats again. */
  lemma BeatsOn(w: World, a: nat)
    requires a < |w.agents| && w.agents[a].phase.AwaitingBeat?
    ensures WorldStep(w, Lose(a)).agents[a].phase == Ready(w.agents[a].phase.confirmed)
    ensures w.agents[a].phase.q in w.sys.flights && w.sys.flights[w.agents[a].phase.q].phase.Answered? ==>
              WorldStep(w, Hear(a)).agents[a].phase == Ready(w.agents[a].phase.confirmed)
  {
  }

  /** `n` attempts that get no answer. */
  function LostAttempts(a: nat, headers: Headers, n: nat): seq<WorldEvent> {
    if n == 0 then [] else LostAttempts(a, headers, n - 1) + [SendRegister(a, headers), Lose(a)]
  }

  lemma {:induction false} WorldRunOfConcat(w: World, es: seq<WorldEvent>, more: seq<WorldEvent>)
    ensures WorldRun(w, es + more) == WorldRun(WorldRun(w, es), more)
    decreases |es|
  {
    hide WorldStep;
    if es == [] {
      assert es + more == more;
    } else {
      assert (es + more)[1..] == es[1..] + more;
      WorldRunOfConcat(WorldStep(w, es[0]), es[1..], more);
    }
  }

  lemma OneLostAttempt(w: World, a: nat, headers: Headers)
    requires a < |w.agents| && w.agents[a].phase.Trying?
    ensures var t, attempt := WorldRun(w, [SendRegister(a, headers), Lose(a)]), w.agents[a].phase.attempt;
      && |t.agents| == |w.agents|
      && t.agents[a].phase == if attempt < 10 then Trying(attempt + 1) else Crashed
  {
    var es := [SendRegister(a, headers), Lose(a)];
    assert es[1..] == [Lose(a)] && [Lose(a)][1..] == [];
    var u := WorldStep(w, es[0]);
    assert WorldRun(w, es) == WorldRun(u, [Lose(a)]) == WorldRun(WorldStep(u, Lose(a)), []);
    hide WorldRun, Step;
  }

  lemma {:induction false} TriesOn(w: World, a: nat, headers: Headers, n: nat)
    requires a < |w.agents| && w.agents[a].phase == Trying(1) && n <= 10
    ensures var t := WorldRun(w, LostAttempts(a, headers, n));
      |t.agents| == |w.agents| && t.agents[a].phase == if n < 10 then Trying(n + 1) else Crashed
  {
    if n > 0 {
      TriesOn(w, a, headers, n - 1);
      hide WorldRun;
      WorldRunOfConcat(w, LostAttempts(a, headers, n - 1), [SendRegister(a, headers), Lose(a)]);
      OneLostAttempt(WorldRun(w, LostAttempts(a, headers, n - 1)), a, headers);
    } else {
      assert WorldRun(w, []) == w;
    }
  }

  /** From every reboot on, an agent that hears nothing tries ten times and then
      gives up. */
  lemma {:induction false} GivesUpAfterTen(w: World, a: nat, headers: Headers, n: nat)
    requires a < |w.agents| && n <= 10
    ensures var t := WorldRun(w, [Reboot(a)] + LostAttempts(a, headers, n));
      |t.agents| == |w.agents| && t.agents[a].phase == if n < 10 then Trying(n + 1) else Crashed
  {
    var es := [Reboot(a)] + LostAttempts(a, headers, n);
    assert es[0] == Reboot(a) && es[1..] == LostAttempts(a, headers, n);
    assert WorldRun(w, es) == WorldRun(WorldStep(w, Reboot(a)), LostAttempts(a, headers, n));
    hide WorldRun;
    TriesOn(WorldStep(w, Reboot(a)), a, headers, n);
  }
}
