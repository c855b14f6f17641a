/** Who gets in and what is answered, in terms of the header fields, the names and
    the rows alone (controller/app/core/security.py, controller/app/api/nodes.py). */
module Admission {
  import opened Wrappers
  import opened Tables
  import opened Security
  import opened Requests
  import opened Controller
  import opened Traces

  // ---------- what the headers say ----------

  predicate IsMark(c: char) {
    c == ',' || c == '/'
  }

  /** `CN=` and at least one character of a name stand at `p`. */
  predicate NameAt(dn: string, p: nat) {
    p + 3 < |dn| && dn[p] == 'C' && dn[p + 1] == 'N' && dn[p + 2] == '=' && !IsMark(dn[p + 3])
  }

  ghost predicate HasName(dn: string) {
    exists p: nat :: NameAt(dn, p)
  }

  /** The first name in `dn` is the text from `p` to `e`. */
  ghost predicate FirstNameAt(dn: string, p: nat, e: nat) {
    && NameAt(dn, p) && (forall k: nat :: k < p ==> !NameAt(dn, k))
    && p + 3 <= e <= |dn| && (forall k :: p + 3 <= k < e ==> !IsMark(dn[k])) && (e == |dn| || IsMark(dn[e]))
  }

  /** The first name in `dn`, without the blanks around it, is `c`. */
  ghost predicate Names(dn: string, c: string) {
    exists p: nat, e: nat :: FirstNameAt(dn, p, e) && TrimsTo(dn[p + 3..e], c)
  }

  predicate LacksHeader(h: Headers) {
    h.verify.None? || h.dn.None?
  }

  predicate IsUnverified(h: Headers) {
    h.verify.Some? && h.dn.Some? && h.verify.value != "SUCCESS"
  }

  ghost predicate IsNameless(h: Headers) {
    h.verify == Some("SUCCESS") && h.dn.Some? && !HasName(h.dn.value)
  }

  /** A verified certificate with the common name `c`. */
  ghost predicate Shows(h: Headers, c: string) {
    h.verify == Some("SUCCESS") && h.dn.Some? && Names(h.dn.value, c)
  }

  /** The serial header is a numeral for `n`. */
  predicate ShowsSerial(h: Headers, n: nat) {
    h.serial.HexSerial? && h.serial.text != "" && IsNumeral(h.serial.text, n)
  }

  ghost predicate ShowsRevoked(h: Headers, revoked: set<nat>) {
    exists n: nat :: n in revoked && ShowsSerial(h, n)
  }

  lemma NameIsMatch(dn: string, p: nat)
    ensures NameAt(dn, p) <==> MatchAt(dn, p)
  {
    if p + 3 < |dn| {
      assert dn[p..p + 3] == [dn[p], dn[p + 1], dn[p + 2]];
      assert CN == ['C', 'N', '='];
    }
  }

  lemma ExtractsFirstName(dn: string)
    ensures HasName(dn) <==> ExtractCn(dn).Some?
    ensures ExtractCn(dn).Some? ==> Names(dn, ExtractCn(dn).value)
  {
    forall p: nat ensures NameAt(dn, p) <==> MatchAt(dn, p) { NameIsMatch(dn, p); }
    if Search(dn, 0).Some? {
      var p := Search(dn, 0).value;
      var e := RunEnd(dn, p + 3);
      StripTrims(dn[p + 3..e]);
      assert FirstNameAt(dn, p, e);
    }
    hide Search, RunEnd, Strip, NameAt, MatchAt;
  }

  lemma FirstNameIsUnique(dn: string, p: nat, e: nat, q: nat, g: nat)
    requires FirstNameAt(dn, p, e) && FirstNameAt(dn, q, g)
    ensures p == q && e == g
  {
  }

  lemma NamesIsUnique(dn: string, a: string, b: string)
    requires Names(dn, a) && Names(dn, b)
    ensures a == b
  {
    hide TrimsTo;
    var p: nat, e: nat :| FirstNameAt(dn, p, e) && TrimsTo(dn[p + 3..e], a);
    var q: nat, g: nat :| FirstNameAt(dn, q, g) && TrimsTo(dn[q + 3..g], b);
    FirstNameIsUnique(dn, p, e, q, g);
    TrimIsUnique(dn[p + 3..e], a, b);
  }

  lemma NamesNeedsName(dn: string, c: string)
    requires Names(dn, c)
    ensures HasName(dn)
  {
  }

  /** The headers decide alone: who is refused and why, and who is identified. */
  lemma AuthenticatesByHeaders(h: Headers)
    ensures LacksHeader(h) <==> Authenticate(h) == Refused(MissingHeaders)
    ensures IsUnverified(h) <==> Authenticate(h) == Refused(VerifyFailure)
    ensures IsNameless(h) <==> Authenticate(h) == Refused(CnParseFailure)
    ensures forall c :: Shows(h, c) <==> Authenticate(h).Known? && Authenticate(h).id.commonName == c
  {
    hide ExtractCn, Names, HasName;
    if h.dn.Some? {
      var dn := h.dn.value;
      ExtractsFirstName(dn);
      forall c | Names(dn, c) ensures ExtractCn(dn) == Some(c) {
        NamesNeedsName(dn, c);
        NamesIsUnique(dn, c, ExtractCn(dn).value);
      }
    }
  }

  lemma SerialByHeader(h: Headers, n: nat)
    requires Authenticate(h).Known?
    ensures Authenticate(h).id.serial == Some(n) <==> ShowsSerial(h, n)
  {
    hide ExtractCn, ParseHex, IsNumeral;
    if h.serial.HexSerial? {
      ParsesNumerals(h.serial.text, n);
    }
  }

  lemma RevokedByHeader(h: Headers, revoked: set<nat>)
    requires Authenticate(h).Known?
    ensures IsRevoked(Authenticate(h).id, revoked) <==> ShowsRevoked(h, revoked)
  {
    var id := Authenticate(h).id;
    hide Authenticate, ShowsSerial;
    if IsRevoked(id, revoked) {
      SerialByHeader(h, id.serial.value);
    }
    if ShowsRevoked(h, revoked) {
      var n: nat :| n in revoked && ShowsSerial(h, n);
      SerialByHeader(h, n);
    }
  }

  // ---------- refusals before the handler ----------

  /** Requests without an identity get exactly these answers, are counted exactly
      so, and change nothing else; no other request gets them. */
  lemma RefusedByHeaders(s: Store, r: Request, now: int)
    ensures LacksHeader(r.headers) <==> Respond(s, r) == Unidentified(MissingHeaders)
    ensures IsUnverified(r.headers) <==> Respond(s, r) == Unidentified(VerifyFailure)
    ensures IsNameless(r.headers) <==> Respond(s, r) == Unidentified(CnParseFailure)
    ensures LacksHeader(r.headers) ==>
              Respond(s, r).Status() == 401 && Serve(s, r, now) == s.(auth := s.auth + multiset{MissingHeaders})
    ensures IsUnverified(r.headers) ==>
              Respond(s, r).Status() == 403 && Serve(s, r, now) == s.(auth := s.auth + multiset{VerifyFailure})
    ensures IsNameless(r.headers) ==>
              Respond(s, r).Status() == 400 && Serve(s, r, now) == s.(auth := s.auth + multiset{CnParseFailure})
  {
    AuthenticatesByHeaders(r.headers);
    hide Serve, Authenticate, IsNameless, Shows, Find;
    match Authenticate(r.headers)
    case Refused(why) => ServeRefused(s, r, now, why);
    case Known(_) =>
  }

  /** A verified certificate is refused as revoked exactly when its serial header,
      in either case and with any leading zeros, is a numeral for a cached serial.
      Then the node table stays; otherwise the request reaches its handler. */
  lemma RevokedByHeaders(s: Store, r: Request, now: int, c: string)
    requires Shows(r.headers, c)
    ensures Respond(s, r) == RevokedCert <==> ShowsRevoked(r.headers, s.revoked)
    ensures ShowsRevoked(r.headers, s.revoked) ==>
              && Respond(s, r).Status() == 403 && Serve(s, r, now).nodes == s.nodes
              && Serve(s, r, now).auth == s.auth + multiset{Accepted, RevokedSerial}
    ensures !ShowsRevoked(r.headers, s.revoked) ==>
              && Authenticate(r.headers).Known? && Respond(s, r) == Decide(s.nodes, Authenticate(r.headers).id, r.call)
              && Serve(s, r, now).auth == s.auth + multiset{Accepted}
  {
    AuthenticatesByHeaders(r.headers);
    RevokedByHeader(r.headers, s.revoked);
    hide Serve, Authenticate, Shows, ShowsRevoked, Find, IsRevoked;
    var id := Authenticate(r.headers).id;
    if IsRevoked(id, s.revoked) {
      ServeRevoked(s, r, now, id);
    } else {
      ServeLive(s, r, now, id);
      DecisionIsNotRevocation(s.nodes, id, r.call);
    }
  }

  lemma DecisionIsNotRevocation(nodes: seq<NodeRow>, id: Identity, call: Call)
    ensures !Decide(nodes, id, call).RevokedCert? && !Decide(nodes, id, call).Unidentified?
  {
    hide Find, MayRegister;
  }

  /** In particular for serials as nginx forwards them, in upper case. */
  lemma UpperCaseSerialsAreChecked(s: Store, r: Request, c: string, n: nat)
    requires Shows(r.headers, c) && r.headers.serial.HexSerial? && r.headers.serial.text == PrintIn(UPPER, n)
    ensures Respond(s, r) == RevokedCert <==> n in s.revoked
  {
    PrintedIsNumeral(UPPER, n);
    ParsesNumerals(r.headers.serial.text, n);
    hide PrintIn, IsNumeral, ParseHex, Shows, Respond;
    RevokedByHeaders(s, r, 0, c);
    forall m: nat | ShowsSerial(r.headers, m) ensures m == n {
      ParsesNumerals(r.headers.serial.text, m);
    }
  }

  // ---------- the handlers' answers ----------

  /** A certificate for a controller, or a node's own. */
  predicate MayName(c: string, p: NodeBase) {
    "controller." <= c || ("pi-" <= c && c == p.commonName)
  }

  ghost predicate HasRow(nodes: seq<NodeRow>, id: string) {
    exists i :: 0 <= i < |nodes| && nodes[i].base.nodeId == id
  }

  lemma FindsRow(nodes: seq<NodeRow>, id: string)
    ensures Find(nodes, id).Some? <==> HasRow(nodes, id)
  {
  }

  /** An identity that is not known to be revoked. */
  ghost predicate IsAdmitted(s: Store, r: Request, c: string) {
    Shows(r.headers, c) && !ShowsRevoked(r.headers, s.revoked)
  }

  lemma AdmittedIsLive(s: Store, r: Request, c: string)
    requires IsAdmitted(s, r, c)
    ensures Authenticate(r.headers).Known? && Authenticate(r.headers).id.commonName == c
    ensures !IsRevoked(Authenticate(r.headers).id, s.revoked)
    ensures Respond(s, r) == Decide(s.nodes, Authenticate(r.headers).id, r.call)
  {
    AuthenticatesByHeaders(r.headers);
    RevokedByHeader(r.headers, s.revoked);
    RevokedByHeaders(s, r, 0, c);
  }

  /** Who may register, and what a registration is answered and stores. */
  lemma RegistersByNames(s: Store, r: Request, now: int, c: string)
    requires IsAdmitted(s, r, c) && r.call.Register?
    ensures var p, status := r.call.payload, Respond(s, r).Status();
      && (status == 403 <==> !MayName(c, p))
      && (status == 409 <==> MayName(c, p) && HasRow(s.nodes, p.nodeId))
      && (status == 201 <==> MayName(c, p) && !HasRow(s.nodes, p.nodeId))
      && Serve(s, r, now).nodes == s.nodes + if status == 201 then [NodeRow(p, now, now, None)] else []
  {
    AdmittedIsLive(s, r, c);
    ServeLive(s, r, now, Authenticate(r.headers).id);
    FindsRow(s.nodes, r.call.payload.nodeId);
    hide Authenticate, IsAdmitted, Serve, Respond, Find, EventFor, HasRow;
  }

  /** A row after an accepted heartbeat. */
  predicate IsBeaten(before: NodeRow, after: NodeRow, now: int) {
    && after.base.nodeId == before.base.nodeId && after.base.commonName == before.base.commonName
    && after.base.role == before.base.role && after.base.ipAddress == before.base.ipAddress
    && after.base.notes == before.base.notes && after.createdAt == before.createdAt
    && after.base.state == (if before.base.state == Onboarding then Active else before.base.state)
    && after.updatedAt == now && after.lastHeartbeatAt == Some(now)
  }

  /** Who may beat, and what a heartbeat is answered and stores: an unknown node is
      404 before anything else, another node's is 403 and stores nothing. */
  lemma BeatsByNames(s: Store, r: Request, now: int, c: string)
    requires IsAdmitted(s, r, c) && r.call.Beat? && Distinct(s.nodes)
    ensures !HasRow(s.nodes, r.call.nodeId) ==> Respond(s, r).Status() == 404 && Serve(s, r, now).nodes == s.nodes
    ensures forall i :: 0 <= i < |s.nodes| && s.nodes[i].base.nodeId == r.call.nodeId ==>
      if s.nodes[i].base.commonName != c
      then Respond(s, r).Status() == 403 && Serve(s, r, now).nodes == s.nodes
      else && Respond(s, r).Status() == 200
           && (Respond(s, r) == Activated <==> s.nodes[i].base.state == Onboarding)
           && |Serve(s, r, now).nodes| == |s.nodes| && IsBeaten(s.nodes[i], Serve(s, r, now).nodes[i], now)
           && forall j :: 0 <= j < |s.nodes| && j != i ==> Serve(s, r, now).nodes[j] == s.nodes[j]
  {
    AdmittedIsLive(s, r, c);
    ServeLive(s, r, now, Authenticate(r.headers).id);
    FindsRow(s.nodes, r.call.nodeId);
    forall i | 0 <= i < |s.nodes| && s.nodes[i].base.nodeId == r.call.nodeId
      ensures Find(s.nodes, r.call.nodeId) == Some(i)
    {
      FindTheRow(s.nodes, i);
    }
    hide Authenticate, IsAdmitted, Serve, Respond, Find, EventFor, HasRow, Distinct;
  }

  /** Reads find what is there and store nothing. */
  lemma ReadsByRows(s: Store, r: Request, now: int, c: string)
    requires IsAdmitted(s, r, c) && (r.call.GetNode? || r.call.ListRows?)
    ensures Respond(s, r).Status() == if r.call.GetNode? && !HasRow(s.nodes, r.call.nodeId) then 404 else 200
    ensures Serve(s, r, now).nodes == s.nodes && Serve(s, r, now).audit == s.audit
  {
    AdmittedIsLive(s, r, c);
    ServeLive(s, r, now, Authenticate(r.headers).id);
    if r.call.GetNode? {
      FindsRow(s.nodes, r.call.nodeId);
    }
    hide Authenticate, IsAdmitted, Serve, Respond, Find, HasRow;
  }

  /** An exception that no handler turned into an answer is a 500, and nothing
      else is. */
  lemma UnhandledIs500(response: Response)
    ensures response.Status() == 500 <==> response == Conflict || response == Failure
  {
  }

  // ---------- whole runs ----------

  /** The label under which a request is counted on arrival. */
  ghost function Label(h: Headers): AuthOutcome {
    if LacksHeader(h) then MissingHeaders
    else if IsUnverified(h) then VerifyFailure
    else if IsNameless(h) then CnParseFailure
    else Accepted
  }

  ghost function Arrived(es: seq<Event>, outcome: AuthOutcome): nat
    decreases |es|
  {
    if es == [] then 0
    else (if es[0].Incoming? && Label(es[0].request.headers) == outcome then 1 else 0) + Arrived(es[1..], outcome)
  }

  /** The accepted requests that show a serial cached when they arrive. */
  ghost function ArrivedRevoked(revoked: set<nat>, es: seq<Event>): nat
    decreases |es|
  {
    if es == [] then 0
    else
      match es[0]
      case Restart => ArrivedRevoked({}, es[1..])
      case CrlInstalled(serials) => ArrivedRevoked(serials, es[1..])
      case Incoming(r, _) =>
        (if Label(r.headers) == Accepted && ShowsRevoked(r.headers, revoked) then 1 else 0)
        + ArrivedRevoked(revoked, es[1..])
  }

  lemma LabelIsRecorded(s: Store, r: Request, now: int)
    ensures Serve(s, r, now).auth
         == s.auth + if Label(r.headers) == Accepted && ShowsRevoked(r.headers, s.revoked)
                     then multiset{Accepted, RevokedSerial} else multiset{Label(r.headers)}
    ensures Serve(s, r, now).revoked == s.revoked
  {
    RefusedByHeaders(s, r, now);
    AuthenticatesByHeaders(r.headers);
    hide Serve, Respond, Authenticate, LacksHeader, IsUnverified, IsNameless, Shows, ShowsRevoked;
    if Label(r.headers) == Accepted {
      LabelledAccepted(r.headers);
      RevokedByHeaders(s, r, now, Authenticate(r.headers).id.commonName);
      KeepsCache(s, r, now);
    }
  }

  lemma LabelledAccepted(h: Headers)
    requires Label(h) == Accepted
    ensures Authenticate(h).Known? && Shows(h, Authenticate(h).id.commonName)
  {
    AuthenticatesByHeaders(h);
    hide ExtractCn, Names, HasName;
  }

  lemma KeepsCache(s: Store, r: Request, now: int)
    ensures Serve(s, r, now).revoked == s.revoked
  {
    hide Respond, NodesAfter, AuthTally;
  }

  /** Over any run without a restart each label of the authentication counter goes
      up by the requests whose headers say so. */
  lemma {:induction false} AuthCountsByHeaders(s: Store, es: seq<Event>)
    requires forall i :: 0 <= i < |es| ==> !es[i].Restart?
    ensures forall outcome :: outcome != RevokedSerial ==>
              Run(s, es).auth[outcome] == s.auth[outcome] + Arrived(es, outcome)
    ensures Run(s, es).auth[RevokedSerial] == s.auth[RevokedSerial] + ArrivedRevoked(s.revoked, es)
    decreases |es|
  {
    hide Serve, Label, ShowsRevoked;
    if es != [] {
      if es[0].Incoming? {
        LabelIsRecorded(s, es[0].request, es[0].now);
        LabelIsNotRevoked(es[0].request.headers);
      }
      AuthCountsByHeaders(Step(s, es[0]), es[1..]);
    }
  }

  lemma LabelIsNotRevoked(h: Headers)
    ensures Label(h) != RevokedSerial
  {
  }

  /** The run without the requests that are refused on arrival. */
  ghost function Identified(es: seq<Event>): seq<Event>
    decreases |es|
  {
    if es == [] then []
    else if es[0].Incoming? && Label(es[0].request.headers) != Accepted then Identified(es[1..])
    else [es[0]] + Identified(es[1..])
  }

  predicate SameButAuth(s: Store, t: Store) {
    s.nodes == t.nodes && s.audit == t.audit && s.counter == t.counter && s.revoked == t.revoked
  }

  lemma RespondsAlike(s: Store, t: Store, r: Request)
    requires SameButAuth(s, t)
    ensures Respond(s, r) == Respond(t, r)
  {
    hide Authenticate, Decide, IsRevoked;
  }

  lemma StepIgnoresAuth(s: Store, t: Store, e: Event)
    requires SameButAuth(s, t)
    ensures SameButAuth(Step(s, e), Step(t, e))
  {
    if e.Incoming? {
      RespondsAlike(s, t, e.request);
    }
    hide Respond, Authenticate, EventFor, NodesAfter, Kinds;
  }

  lemma RefusedLeavesAll(s: Store, r: Request, now: int)
    requires Label(r.headers) != Accepted
    ensures SameButAuth(Serve(s, r, now), s)
  {
    RefusedByHeaders(s, r, now);
    hide Serve, Respond, LacksHeader, IsUnverified, IsNameless;
  }

  /** Requests without an identity leave no trace but their label: without them
      every run ends with the same nodes, log, event counter and cache. */
  lemma {:induction false} RefusedLeaveNoTrace(s: Store, t: Store, es: seq<Event>)
    requires SameButAuth(s, t)
    ensures SameButAuth(Run(s, es), Run(t, Identified(es)))
    decreases |es|
  {
    hide Serve, SameButAuth, Label;
    if es != [] {
      var e, rest := es[0], es[1..];
      if e.Incoming? && Label(e.request.headers) != Accepted {
        RefusedLeavesAll(s, e.request, e.now);
        SameTransitively(Step(s, e), s, t);
        RefusedLeaveNoTrace(Step(s, e), t, rest);
      } else {
        StepIgnoresAuth(s, t, e);
        RefusedLeaveNoTrace(Step(s, e), Step(t, e), rest);
        assert ([e] + Identified(rest))[1..] == Identified(rest);
      }
    }
  }

  lemma SameTransitively(s: Store, t: Store, u: Store)
    requires SameButAuth(s, t) && SameButAuth(t, u)
    ensures SameButAuth(s, u)
  {
  }

  // ---------- every row was registered ----------

  /** The row is the payload, perhaps activated since. */
  predicate IsPayload(row: NodeRow, p: NodeBase) {
    && row.base.nodeId == p.nodeId && row.base.commonName == p.commonName && row.base.role == p.role
    && row.base.ipAddress == p.ipAddress && row.base.notes == p.notes
    && (row.base.state == p.state || (p.state == Onboarding && row.base.state == Active))
  }

  /** The event is a registration of this row by someone entitled to it. */
  ghost predicate Registers(e: Event, row: NodeRow) {
    && e.Incoming? && e.request.call.Register? && IsPayload(row, e.request.call.payload)
    && exists c :: Shows(e.request.headers, c) && MayName(c, e.request.call.payload)
  }

  predicate SameNode(before: NodeRow, after: NodeRow) {
    IsPayload(after, before.base)
  }

  lemma StillRegisters(e: Event, before: NodeRow, after: NodeRow)
    requires Registers(e, before) && SameNode(before, after)
    ensures Registers(e, after)
  {
    hide Shows;
  }

  /** One event keeps every row and adds at most the one it registers. */
  ghost predicate GrowsBy(nodes: seq<NodeRow>, after: seq<NodeRow>, e: Event) {
    && |nodes| <= |after|
    && (forall i :: 0 <= i < |nodes| ==> SameNode(nodes[i], after[i]))
    && forall i :: |nodes| <= i < |after| ==> Registers(e, after[i])
  }

  lemma DecisionGrows(nodes: seq<NodeRow>, r: Request, now: int, id: Identity)
    requires Shows(r.headers, id.commonName)
    ensures GrowsBy(nodes, NodesAfter(nodes, r.call, Decide(nodes, id, r.call), now), Incoming(r, now))
  {
    hide Shows, Find;
  }

  lemma LiveGrows(s: Store, r: Request, now: int, id: Identity)
    requires Authenticate(r.headers) == Known(id) && !IsRevoked(id, s.revoked)
    ensures GrowsBy(s.nodes, Serve(s, r, now).nodes, Incoming(r, now))
  {
    AuthenticatesByHeaders(r.headers);
    hide Authenticate, Serve, Respond, GrowsBy, Shows, NodesAfter, Decide, EventFor, IsRevoked;
    ServeLive(s, r, now, id);
    DecisionGrows(s.nodes, r, now, id);
  }

  lemma StepGrows(s: Store, e: Event)
    ensures GrowsBy(s.nodes, Step(s, e).nodes, e)
  {
    hide Serve, Authenticate, Registers;
    if e.Incoming? {
      match Authenticate(e.request.headers) {
        case Refused(why) => ServeRefused(s, e.request, e.now, why);
        case Known(id) =>
          if IsRevoked(id, s.revoked) {
            ServeRevoked(s, e.request, e.now, id);
          } else {
            hide GrowsBy;
            LiveGrows(s, e.request, e.now, id);
          }
      }
    }
  }

  ghost predicate IsRegistered(es: seq<Event>, row: NodeRow) {
    exists k :: 0 <= k < |es| && Registers(es[k], row)
  }

  /** Over any run every row added since the start was registered by a controller,
      or by the node whose common name it bears, and is as it was sent up to
      activation. */
  lemma {:induction false} EveryRowWasRegistered(s: Store, es: seq<Event>)
    ensures |s.nodes| <= |Run(s, es).nodes|
    ensures forall i :: 0 <= i < |s.nodes| ==> SameNode(s.nodes[i], Run(s, es).nodes[i])
    ensures forall i :: |s.nodes| <= i < |Run(s, es).nodes| ==> IsRegistered(es, Run(s, es).nodes[i])
    decreases |es|
  {
    hide Step, Registers;
    if es != [] {
      var t, rest := Step(s, es[0]), es[1..];
      StepGrows(s, es[0]);
      EveryRowWasRegistered(t, rest);
      forall i | |s.nodes| <= i < |Run(s, es).nodes| ensures IsRegistered(es, Run(s, es).nodes[i]) {
        var row := Run(s, es).nodes[i];
        if i < |t.nodes| {
          StillRegisters(es[0], t.nodes[i], row);
        } else {
          var k :| 0 <= k < |rest| && Registers(rest[k], row);
          assert es[k + 1] == rest[k];
        }
      }
    }
  }
}
