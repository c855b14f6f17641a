/** Renewal of the controller-side certificates: renew, else re-issue, then a
    post-action (scripts/renew-certs.sh). The script is a list of commands run by
    a shell with errexit on or off. Times are hours. */
module ServiceCerts {
  import opened Wrappers

  const THRESHOLD := 8.0
  const LIFETIME := 24.0

  // ---------- a shell ----------

  datatype Command =
    | Log | EnterDirectory | CollectSans
    | NeedsRenewal | Renew | Reissue
    | CertPresent | CopyCert | CopyKey | SetModes
    | NginxRunning | ReloadNginx | PrometheusRunning | SignalPrometheus

  datatype Statement =
    | Do(command: Command)
    | Return                                                     // `return 0`
    | If(condition: Command, yes: seq<Statement>, no: seq<Statement>)

  type Script = seq<Statement>

  /** What one run meets: the clock, and the commands that would succeed. */
  datatype Luck = Luck(now: real, works: set<Command>)

  datatype Flow = Going | Returned | Aborted

  /** The certificate's end of validity, whether the last status was zero, and
      whether the shell goes on. */
  datatype Shell = Shell(cert: real, ok: bool, flow: Flow)

  predicate CannotFail(c: Command) {
    c == Log || c == EnterDirectory || c == CollectSans
  }

  predicate InWindow(cert: real, l: Luck) {
    cert - l.now < THRESHOLD
  }

  /** The renewal check succeeds on a certificate in its window that it can read;
      renewal authenticates with the existing certificate, so it needs it valid. */
  predicate Succeeds(c: Command, cert: real, l: Luck) {
    match c
    case NeedsRenewal => NeedsRenewal in l.works && InWindow(cert, l)
    case Renew => Renew in l.works && l.now < cert
    case _ => CannotFail(c) || c in l.works
  }

  function Effect(c: Command, cert: real, l: Luck): real {
    if (c == Renew || c == Reissue) && Succeeds(c, cert, l) then l.now + LIFETIME else cert
  }

  /** The branch an `if` takes. */
  function Branch(s: Statement, cert: real, l: Luck): Script
    requires s.If?
  {
    if Succeeds(s.condition, cert, l) then s.yes else s.no
  }

  /** The shell as it enters that branch: the status of an `if` is zero unless a
      command in the branch fails. */
  function Inside(s: Statement, cert: real, l: Luck): Shell
    requires s.If?
  {
    Shell(Effect(s.condition, cert, l), true, Going)
  }

  /** With errexit on, a command that fails outside a condition ends the shell. */
  function Execute(errexit: bool, s: Statement, sh: Shell, l: Luck): Shell
    decreases s
  {
    match s
    case Do(c) =>
      var ok := Succeeds(c, sh.cert, l);
      Shell(Effect(c, sh.cert, l), ok, if ok || !errexit then Going else Aborted)
    case Return => Shell(sh.cert, true, Returned)
    case If(_, _, _) => Exec(errexit, Branch(s, sh.cert, l), Inside(s, sh.cert, l), l)
  }

  function Exec(errexit: bool, script: Script, sh: Shell, l: Luck): Shell
    decreases script
  {
    if script == [] || !sh.flow.Going? then sh
    else Exec(errexit, script[1..], Execute(errexit, script[0], sh, l), l)
  }

  function Fresh(cert: real): Shell {
    Shell(cert, true, Going)
  }

  lemma {:induction false} ExecOfConcat(errexit: bool, a: Script, b: Script, sh: Shell, l: Luck)
    ensures Exec(errexit, a + b, sh, l) == Exec(errexit, b, Exec(errexit, a, sh, l), l)
    decreases |a|
  {
    if a == [] {
      assert a + b == b;
    } else if sh.flow.Going? {
      assert (a + b)[1..] == a[1..] + b;
      ExecOfConcat(errexit, a[1..], b, Execute(errexit, a[0], sh, l), l);
    }
  }

  // ---------- what errexit decides ----------

  /** Off: no failure stops anything. */
  lemma {:induction false} OffNeverAborts(script: Script, sh: Shell, l: Luck)
    requires !sh.flow.Aborted?
    ensures !Exec(false, script, sh, l).flow.Aborted?
    decreases script
  {
    if script != [] && sh.flow.Going? {
      if script[0].If? {
        OffNeverAborts(Branch(script[0], sh.cert, l), Inside(script[0], sh.cert, l), l);
      }
      OffNeverAborts(script[1..], Execute(false, script[0], sh, l), l);
    }
  }

  /** On, and nothing failed: errexit made no difference. */
  lemma {:induction false} OnAgreesUnlessAborted(script: Script, sh: Shell, l: Luck)
    requires !Exec(true, script, sh, l).flow.Aborted?
    ensures Exec(false, script, sh, l) == Exec(true, script, sh, l)
    decreases script
  {
    if script != [] && sh.flow.Going? {
      var next := Execute(true, script[0], sh, l);
      StopsForGood(script[1..], next, l);
      if script[0].If? {
        OnAgreesUnlessAborted(Branch(script[0], sh.cert, l), Inside(script[0], sh.cert, l), l);
      }
      OnAgreesUnlessAborted(script[1..], next, l);
    }
  }

  lemma StopsForGood(script: Script, sh: Shell, l: Luck)
    ensures sh.flow.Aborted? ==> Exec(true, script, sh, l) == sh
  {
  }

  /** Off: the status is zero after a return, and otherwise the last command's,
      whatever failed before it. */
  lemma LastCommandDecides(front: Script, c: Command, sh: Shell, l: Luck)
    requires sh.flow.Going?
    ensures var before := Exec(false, front, sh, l);
      Exec(false, front + [Do(c)], sh, l).ok == (before.flow.Returned? || Succeeds(c, before.cert, l))
  {
    var before := Exec(false, front, sh, l);
    ExecOfConcat(false, front, [Do(c)], sh, l);
    ReturnIsZero(front, sh, l);
    if before.flow.Going? {
      assert Exec(false, [Do(c)], before, l) == Exec(false, [], Execute(false, Do(c), before, l), l);
    }
  }

  /** The script's last command cannot fail, on any path through it. */
  predicate EndsQuietly(script: Script)
    decreases script
  {
    script == [] ||
    match script[|script| - 1]
    case Do(c) => CannotFail(c)
    case Return => true
    case If(_, yes, no) => EndsQuietly(yes) && EndsQuietly(no)
  }

  /** Off: the status is the last command's, so a script that ends quietly reports
      success whatever failed in it. */
  lemma {:induction false} QuietScriptReportsSuccess(script: Script, sh: Shell, l: Luck)
    requires EndsQuietly(script) && sh.ok
    requires !sh.flow.Aborted?
    ensures Exec(false, script, sh, l).ok
    decreases script
  {
    if script != [] && sh.flow.Going? {
      var front, last := script[..|script| - 1], script[|script| - 1];
      assert script == front + [last];
      ExecOfConcat(false, front, [last], sh, l);
      var before := Exec(false, front, sh, l);
      ReturnIsZero(front, sh, l);
      if before.flow.Going? {
        if last.If? {
          QuietScriptReportsSuccess(Branch(last, before.cert, l), Inside(last, before.cert, l), l);
        }
        assert Exec(false, [last], before, l) == Exec(false, [], Execute(false, last, before, l), l);
      }
    }
  }

  lemma {:induction false} ReturnIsZero(script: Script, sh: Shell, l: Luck)
    requires sh.flow.Going? || (sh.flow.Returned? && sh.ok)
    ensures var e := Exec(false, script, sh, l); e.flow.Going? || (e.flow.Returned? && e.ok)
    decreases script
  {
    if script != [] && sh.flow.Going? {
      if script[0].If? {
        ReturnIsZero(Branch(script[0], sh.cert, l), Inside(script[0], sh.cert, l), l);
      }
      ReturnIsZero(script[1..], Execute(false, script[0], sh, l), l);
    }
  }

  // ---------- renew_cert ----------

  const CHECK: Script := [Do(Log), Do(EnterDirectory), If(NeedsRenewal, [], [Do(Log), Return])]

  const OBTAIN: Script := [Do(Log), If(Renew, [Do(Log)], [Do(Log), Do(CollectSans), Do(Reissue), Do(Log)])]

  const POST_CONTROLLER: Script := [
    If(CertPresent, [
      Do(CopyCert), Do(CopyKey), Do(SetModes), Do(Log),
      If(NginxRunning, [Do(ReloadNginx), Do(Log)], [])
    ], [])
  ]

  const POST_PROMETHEUS: Script := [
    Do(SetModes),
    If(PrometheusRunning, [Do(SignalPrometheus), Do(Log)], [])
  ]

  /** `renew_cert` for an entry with or without a post-action. */
  function RenewScript(post: Option<Script>): Script {
    CHECK + OBTAIN + if post.Some? then [Do(Log)] + post.value else []
  }

  /** The script issues no certificate itself. */
  predicate LeavesCert(script: Script)
    decreases script
  {
    forall i :: 0 <= i < |script| ==>
      match script[i]
      case Do(c) => c != Renew && c != Reissue
      case Return => true
      case If(c, yes, no) => c != Renew && c != Reissue && LeavesCert(yes) && LeavesCert(no)
  }

  /** A post-action that issues nothing and ends quietly. */
  predicate IsPost(post: Option<Script>) {
    post.Some? ==> LeavesCert(post.value) && EndsQuietly(post.value)
  }

  /** Both post-actions are of this kind: each ends in an `if` that ends in a log. */
  lemma PostsAreQuiet()
    ensures IsPost(Some(POST_CONTROLLER)) && IsPost(Some(POST_PROMETHEUS))
  {
    assert EndsQuietly([Do(ReloadNginx), Do(Log)]) && EndsQuietly([Do(SignalPrometheus), Do(Log)]);
    assert EndsQuietly(POST_CONTROLLER[0].yes);
    assert LeavesCert([Do(ReloadNginx), Do(Log)]) && LeavesCert([Do(SignalPrometheus), Do(Log)]);
    assert LeavesCert(POST_CONTROLLER[0].yes);
  }

  lemma {:induction false} LeavesCertAlone(errexit: bool, script: Script, sh: Shell, l: Luck)
    requires LeavesCert(script)
    ensures Exec(errexit, script, sh, l).cert == sh.cert
    decreases script
  {
    if script != [] && sh.flow.Going? {
      if script[0].If? {
        LeavesCertAlone(errexit, Branch(script[0], sh.cert, l), Inside(script[0], sh.cert, l), l);
      }
      LeavesCertAlone(errexit, script[1..], Execute(errexit, script[0], sh, l), l);
    }
  }

  /** A command of the script, outside conditions, fails. */
  predicate AnyFails(script: Script, cert: real, l: Luck)
    decreases script
  {
    script != [] && (Fails(script[0], cert, l) || AnyFails(script[1..], cert, l))
  }

  predicate Fails(s: Statement, cert: real, l: Luck)
    decreases s
  {
    match s
    case Do(c) => !Succeeds(c, cert, l)
    case Return => false
    case If(_, _, _) => AnyFails(Branch(s, cert, l), cert, l)
  }

  predicate HasNoReturn(script: Script)
    decreases script
  {
    forall i :: 0 <= i < |script| ==>
      match script[i]
      case Do(_) => true
      case Return => false
      case If(_, yes, no) => HasNoReturn(yes) && HasNoReturn(no)
  }

  /** With errexit on, a script that issues nothing and does not return early stops
      exactly when one of its commands fails. */
  lemma {:induction false} AbortsIffAnyFails(script: Script, sh: Shell, l: Luck)
    requires LeavesCert(script) && HasNoReturn(script) && sh.flow.Going?
    ensures var e := Exec(true, script, sh, l);
      !e.flow.Returned? && e.cert == sh.cert && (e.flow.Aborted? <==> AnyFails(script, sh.cert, l))
    decreases script
  {
    if script != [] {
      var next := Execute(true, script[0], sh, l);
      if script[0].If? {
        AbortsIffAnyFails(Branch(script[0], sh.cert, l), Inside(script[0], sh.cert, l), l);
      }
      if next.flow.Going? {
        AbortsIffAnyFails(script[1..], next, l);
      }
    }
  }

  lemma OneFails(s: Statement, rest: Script, cert: real, l: Luck)
    ensures AnyFails([s] + rest, cert, l) <==> Fails(s, cert, l) || AnyFails(rest, cert, l)
  {
    assert ([s] + rest)[1..] == rest;
  }

  /** `if condition; then command; log; fi`. */
  lemma SignalFails(condition: Command, command: Command, cert: real, l: Luck)
    ensures AnyFails([If(condition, [Do(command), Do(Log)], [])], cert, l)
       <==> Succeeds(condition, cert, l) && !Succeeds(command, cert, l)
  {
    hide AnyFails;
    NoneFails(cert, l);
    OneFails(Do(Log), [], cert, l);
    OneFails(Do(command), [Do(Log)], cert, l);
    OneFails(If(condition, [Do(command), Do(Log)], []), [], cert, l);
    assert [Do(Log)] + [] == [Do(Log)] && [Do(command)] + [Do(Log)] == [Do(command), Do(Log)];
    var signal := If(condition, [Do(command), Do(Log)], []);
    assert [signal] + [] == [signal];
  }

  lemma NoneFails(cert: real, l: Luck)
    ensures !AnyFails([], cert, l)
  {
  }

  lemma PostsReturnNothing()
    ensures HasNoReturn(POST_CONTROLLER) && HasNoReturn(POST_PROMETHEUS)
  {
    assert HasNoReturn([Do(ReloadNginx), Do(Log)]) && HasNoReturn([Do(SignalPrometheus), Do(Log)]);
    assert HasNoReturn(POST_CONTROLLER[0].yes);
  }

  lemma ControllerPostFails(cert: real, l: Luck)
    ensures AnyFails(POST_CONTROLLER, cert, l)
       <==> && CertPresent in l.works
            && (|| CopyCert !in l.works || CopyKey !in l.works || SetModes !in l.works
                || (NginxRunning in l.works && ReloadNginx !in l.works))
  {
    var reload := [If(NginxRunning, [Do(ReloadNginx), Do(Log)], [])];
    assert POST_CONTROLLER == [If(CertPresent, POST_CONTROLLER[0].yes, [])] + [];
    assert POST_CONTROLLER[0].yes == [Do(CopyCert)] + ([Do(CopyKey)] + ([Do(SetModes)] + ([Do(Log)] + reload)));
    hide AnyFails;
    NoneFails(cert, l);
    SignalFails(NginxRunning, ReloadNginx, cert, l);
    OneFails(Do(Log), reload, cert, l);
    OneFails(Do(SetModes), [Do(Log)] + reload, cert, l);
    OneFails(Do(CopyKey), [Do(SetModes)] + ([Do(Log)] + reload), cert, l);
    OneFails(Do(CopyCert), [Do(CopyKey)] + ([Do(SetModes)] + ([Do(Log)] + reload)), cert, l);
    OneFails(If(CertPresent, POST_CONTROLLER[0].yes, []), [], cert, l);
  }

  lemma PrometheusPostFails(cert: real, l: Luck)
    ensures AnyFails(POST_PROMETHEUS, cert, l)
       <==> SetModes !in l.works || (PrometheusRunning in l.works && SignalPrometheus !in l.works)
  {
    var signal := [If(PrometheusRunning, [Do(SignalPrometheus), Do(Log)], [])];
    assert POST_PROMETHEUS == [Do(SetModes)] + signal;
    hide AnyFails;
    SignalFails(PrometheusRunning, SignalPrometheus, cert, l);
    OneFails(Do(SetModes), signal, cert, l);
  }

  /** What the caller's `||` hides: with errexit on, a post-action would stop the
      run exactly when one of its copies, modes or signals fails. */
  lemma PostsWouldAbort(cert: real, l: Luck)
    ensures Exec(true, POST_CONTROLLER, Fresh(cert), l).flow.Aborted?
       <==> && CertPresent in l.works
            && (|| CopyCert !in l.works || CopyKey !in l.works || SetModes !in l.works
                || (NginxRunning in l.works && ReloadNginx !in l.works))
    ensures Exec(true, POST_PROMETHEUS, Fresh(cert), l).flow.Aborted?
       <==> SetModes !in l.works || (PrometheusRunning in l.works && SignalPrometheus !in l.works)
  {
    PostsAreQuiet();
    PostsReturnNothing();
    ControllerPostFails(cert, l);
    PrometheusPostFails(cert, l);
    hide Exec, AnyFails, HasNoReturn, LeavesCert;
    AbortsIffAnyFails(POST_CONTROLLER, Fresh(cert), l);
    AbortsIffAnyFails(POST_PROMETHEUS, Fresh(cert), l);
  }

  /** What a run can do for a certificate in its window. */
  predicate CanObtain(cert: real, l: Luck) {
    Succeeds(Renew, cert, l) || Reissue in l.works
  }

  /** The script goes past its renewal check. */
  predicate Due(cert: real, l: Luck) {
    Succeeds(NeedsRenewal, cert, l)
  }

  /** The certificate an entry ends with. */
  function After(cert: real, l: Luck): real {
    if Due(cert, l) && CanObtain(cert, l) then l.now + LIFETIME else cert
  }

  lemma CheckIs(errexit: bool, cert: real, l: Luck)
    ensures Exec(errexit, CHECK, Fresh(cert), l) == Shell(cert, true, if Due(cert, l) then Going else Returned)
  {
    var tail := [If(NeedsRenewal, [], [Do(Log), Return])];
    assert CHECK[1..][1..] == tail && tail[1..] == [];
    assert [Do(Log), Return][1..] == [Return] && [Return][1..] == [];
    assert Exec(errexit, [Do(Log), Return], Fresh(cert), l) == Exec(errexit, [Return], Fresh(cert), l);
    assert Exec(errexit, CHECK, Fresh(cert), l) == Exec(errexit, CHECK[1..], Fresh(cert), l);
    assert Exec(errexit, CHECK[1..], Fresh(cert), l) == Exec(errexit, tail, Fresh(cert), l);
  }

  /** A failed re-issue is followed by a log line: only errexit would notice it. */
  lemma ObtainIs(errexit: bool, cert: real, l: Luck)
    ensures Exec(errexit, OBTAIN, Fresh(cert), l)
         == if CanObtain(cert, l) then Fresh(l.now + LIFETIME)
            else if errexit then Shell(cert, false, Aborted) else Fresh(cert)
  {
    var reissue := [Do(Log), Do(CollectSans), Do(Reissue), Do(Log)];
    var last := [Do(Reissue), Do(Log)];
    assert reissue[1..][1..] == last && last[1..] == [Do(Log)] && [Do(Log)][1..] == [];
    assert Exec(errexit, reissue, Fresh(cert), l) == Exec(errexit, reissue[1..], Fresh(cert), l);
    assert Exec(errexit, reissue[1..], Fresh(cert), l) == Exec(errexit, last, Fresh(cert), l);
    assert OBTAIN[1..] == [If(Renew, [Do(Log)], reissue)] && OBTAIN[1..][1..] == [];
    assert Exec(errexit, OBTAIN, Fresh(cert), l) == Exec(errexit, OBTAIN[1..], Fresh(cert), l);
  }

  /** The whole function: check, obtain, post-action. */
  lemma RenewScriptIs(errexit: bool, post: Option<Script>, cert: real, l: Luck)
    requires IsPost(post)
    ensures var e := Exec(errexit, RenewScript(post), Fresh(cert), l);
      && e.cert == After(cert, l)
      && (!Due(cert, l) ==> e == Shell(cert, true, Returned))
      && (Due(cert, l) && !CanObtain(cert, l) && errexit ==> e == Shell(cert, false, Aborted))
      && (Due(cert, l) && (CanObtain(cert, l) || !errexit) ==>
            e == if post.Some? then Exec(errexit, post.value, Fresh(After(cert, l)), l) else Fresh(After(cert, l)))
  {
    var tail := if post.Some? then [Do(Log)] + post.value else [];
    ExecOfConcat(errexit, CHECK + OBTAIN, tail, Fresh(cert), l);
    ExecOfConcat(errexit, CHECK, OBTAIN, Fresh(cert), l);
    CheckIs(errexit, cert, l);
    if Due(cert, l) {
      ObtainIs(errexit, cert, l);
      if post.Some? {
        assert tail[1..] == post.value;
        LeavesCertAlone(errexit, post.value, Fresh(After(cert, l)), l);
      }
    }
  }

  // ---------- the registry ----------

  /** What `renew_cert` does on the left of `||`, where errexit is off. */
  function Guarded(post: Option<Script>, cert: real, l: Luck): Shell {
    Exec(false, RenewScript(post), Fresh(cert), l)
  }

  /** The entries logged as FAILED among the first `n`. */
  function Failed(posts: seq<Option<Script>>, certs: seq<real>, luck: seq<Luck>, n: nat): seq<nat>
    requires n <= |certs| == |luck| == |posts|
  {
    if n == 0 then []
    else Failed(posts, certs, luck, n - 1) + if Guarded(posts[n - 1], certs[n - 1], luck[n - 1]).ok then [] else [n - 1]
  }

  class Registry {
    const posts: seq<Option<Script>>
    var certs: array<real>

    constructor (posts: seq<Option<Script>>, certs: array<real>)
      ensures this.posts == posts && this.certs == certs
    {
      this.posts, this.certs := posts, certs;
    }

    /** `renew_cert` for one entry, as called by the loop. */
    method RenewCert(i: nat, l: Luck) returns (ok: bool)
      requires i < certs.Length == |posts| && IsPost(posts[i])
      modifies certs
      ensures certs[..] == old(certs[..])[i := Guarded(posts[i], old(certs[i]), l).cert]
      ensures ok == Guarded(posts[i], old(certs[i]), l).ok
    {
      RenewScriptIs(false, posts[i], certs[i], l);
      if !Succeeds(NeedsRenewal, certs[i], l) {
        return true;
      }
      if Succeeds(Renew, certs[i], l) {
        certs[i] := l.now + LIFETIME;
      } else if Reissue in l.works {
        certs[i] := l.now + LIFETIME;
      }
      ok := true;
      if posts[i].Some? {
        ok := Exec(false, posts[i].value, Fresh(certs[i]), l).ok;
      }
    }

    /** The loop over the registry: every entry is attempted once, in order, and
        its outcome does not depend on the others. */
    method RenewAll(luck: seq<Luck>) returns (attempted: seq<nat>, failed: seq<nat>)
      requires |luck| == certs.Length == |posts| && forall i :: 0 <= i < |posts| ==> IsPost(posts[i])
      modifies certs
      ensures forall i :: 0 <= i < certs.Length ==> certs[i] == Guarded(posts[i], old(certs[i]), luck[i]).cert
      ensures attempted == seq(certs.Length, i => i)
      ensures failed == Failed(posts, old(certs[..]), luck, certs.Length)
    {
      attempted, failed := [], [];
      for i := 0 to certs.Length
        invariant forall j :: 0 <= j < i ==> certs[j] == Guarded(posts[j], old(certs[j]), luck[j]).cert
        invariant forall j :: i <= j < certs.Length ==> certs[j] == old(certs[j])
        invariant attempted == seq(i, j => j)
        invariant failed == Failed(posts, old(certs[..]), luck, i)
      {
        ghost var before := certs[..];
        var ok := RenewCert(i, luck[i]);
        assert forall j :: 0 <= j < certs.Length && j != i ==> certs[j] == certs[..][j] == before[j];
        assert certs[i] == certs[..][i];
        attempted := attempted + [i];
        if !ok {
          failed := failed + [i];
        }
      }
    }
  }

  /** No entry is ever logged as FAILED, whatever its commands do. */
  lemma {:induction false} NothingIsReported(posts: seq<Option<Script>>, certs: seq<real>, luck: seq<Luck>, n: nat)
    requires n <= |certs| == |luck| == |posts| && forall i :: 0 <= i < |posts| ==> IsPost(posts[i])
    ensures Failed(posts, certs, luck, n) == []
  {
    if n > 0 {
      NothingIsReported(posts, certs, luck, n - 1);
      var post, cert, l := posts[n - 1], certs[n - 1], luck[n - 1];
      RenewScriptIs(false, post, cert, l);
      if Due(cert, l) && post.Some? {
        QuietScriptReportsSuccess(post.value, Fresh(After(cert, l)), l);
      }
    }
  }

  /** From any certificate state, one run leaves at least the threshold exactly
      when it was there already, or the check worked and renewal or re-issue did. */
  lemma OneRunStabilises(post: Option<Script>, cert: real, l: Luck)
    requires IsPost(post)
    ensures Guarded(post, cert, l).cert
         == if cert - l.now < 8.0 && NeedsRenewal in l.works
               && ((Renew in l.works && l.now < cert) || Reissue in l.works)
            then l.now + 24.0 else cert
    ensures 8.0 <= Guarded(post, cert, l).cert - l.now
       <==> || 8.0 <= cert - l.now
            || (NeedsRenewal in l.works && ((Renew in l.works && l.now < cert) || Reissue in l.works))
  {
    RenewScriptIs(false, post, cert, l);
  }

  /** A run reports success and leaves the certificate in its window exactly when
      it was in the window and either the check itself failed, which reads as
      nothing to do, or renewal and re-issue both failed. With errexit on, the
      second kind would have stopped the run; the first would not, because a
      condition may fail. */
  lemma SilentFailure(post: Option<Script>, cert: real, l: Luck)
    requires IsPost(post)
    ensures Guarded(post, cert, l).ok && InWindow(Guarded(post, cert, l).cert, l)
       <==> && InWindow(cert, l)
            && (NeedsRenewal !in l.works || (!Succeeds(Renew, cert, l) && Reissue !in l.works))
    ensures InWindow(Guarded(post, cert, l).cert, l) ==>
              Exec(true, RenewScript(post), Fresh(cert), l)
              == if NeedsRenewal in l.works then Shell(cert, false, Aborted) else Shell(cert, true, Returned)
  {
    RenewScriptIs(false, post, cert, l);
    RenewScriptIs(true, post, cert, l);
    NothingIsReported([post], [cert], [l], 1);
    assert Failed([post], [cert], [l], 0) == [];
  }

  // ---------- over many runs ----------

  function AfterRuns(post: Option<Script>, cert: real, runs: seq<Luck>): real
    decreases |runs|
  {
    if runs == [] then cert else AfterRuns(post, Guarded(post, cert, runs[0]).cert, runs[1..])
  }

  /** If the check works in some run of a stretch and that run can re-issue, then
      from any state at all, expired or not, the certificate has at least the
      threshold left after the last such run, and is valid until the next one if
      that comes in time. */
  lemma {:induction false} SelfHealing(post: Option<Script>, cert: real, runs: seq<Luck>, heal: nat)
    requires IsPost(post) && heal < |runs| && NeedsRenewal in runs[heal].works && Reissue in runs[heal].works
    ensures runs[heal].now + 8.0 <= AfterRuns(post, cert, runs)
    decreases |runs|
  {
    RenewScriptIs(false, post, cert, runs[0]);
    var next := Guarded(post, cert, runs[0]).cert;
    if heal == 0 {
      NeverShrinks(post, next, runs[1..]);
    } else {
      SelfHealing(post, next, runs[1..], heal - 1);
    }
  }

  lemma {:induction false} NeverShrinks(post: Option<Script>, cert: real, runs: seq<Luck>)
    requires IsPost(post)
    ensures cert <= AfterRuns(post, cert, runs)
    decreases |runs|
  {
    if runs != [] {
      RenewScriptIs(false, post, cert, runs[0]);
      NeverShrinks(post, Guarded(post, cert, runs[0]).cert, runs[1..]);
    }
  }

  /** A certificate the check cannot read is skipped for ever, with success
      reported every time. */
  lemma {:induction false} UncheckedIsSkippedForEver(post: Option<Script>, cert: real, runs: seq<Luck>)
    requires IsPost(post) && forall i :: 0 <= i < |runs| ==> NeedsRenewal !in runs[i].works
    ensures AfterRuns(post, cert, runs) == cert
    ensures forall i :: 0 <= i < |runs| ==> Guarded(post, cert, runs[i]).ok
    decreases |runs|
  {
    if runs != [] {
      RenewScriptIs(false, post, cert, runs[0]);
      UncheckedIsSkippedForEver(post, cert, runs[1..]);
      assert forall i :: 0 < i < |runs| ==> runs[i] == runs[1..][i - 1];
    }
  }
}
