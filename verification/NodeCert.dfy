/** A node's certificate: the renewal script, the start gate of the agent, and
    manual re-enrolment (node-agent/deploy/renew-cert.sh,
    node-agent/app/cert_guard.py). Times are hours. */
module NodeCert {
  import opened Wrappers
  import opened Durations

  const WINDOW := 48.0
  const LIFETIME := 168.0

  /** The end of validity of the certificate on disk (if there is one), and of
      the one a running agent loaded when it started. */
  datatype Device = Device(cert: Option<real>, loaded: Option<real>)

  datatype Action =
    | Timer(now: real, check: bool, ca: bool, restart: bool)  // one run of the script: what works in it
    | StartAgent(now: real, inspect: bool)                    // `step certificate inspect` gives a readable date
    | StopAgent(now: real)
    | ReEnrol(now: real)                                      // the runbook, by hand

  predicate NeedsRenewal(cert: real, now: real) {
    cert - now < WINDOW
  }

  /** This run of the script installs a new certificate. */
  predicate Renews(d: Device, a: Action) {
    a.Timer? && d.cert.Some? && a.check && NeedsRenewal(d.cert.value, a.now) && a.ca && a.now < d.cert.value
  }

  function Act(d: Device, a: Action): Device {
    match a
    case Timer(now, _, _, restart) =>
      if !Renews(d, a) then d
      else
        var renewed := Some(now + LIFETIME);
        Device(renewed, if d.loaded.Some? && restart then renewed else d.loaded)
    case StartAgent(now, inspect) =>
      if inspect && d.cert.Some? && now < d.cert.value then d.(loaded := d.cert) else d
    case StopAgent(_) => d.(loaded := None)
    case ReEnrol(now) => Device(Some(now + LIFETIME), d.loaded)
  }

  class Node {
    var cert: Option<real>
    var loaded: Option<real>

    ghost function View(): Device
      reads this
    {
      Device(cert, loaded)
    }

    constructor (cert: Option<real>)
      ensures View() == Device(cert, None)
    {
      this.cert, loaded := cert, None;
    }

    /** renew-cert.sh; `exitCode` is its exit status. There is no fallback, and a
        check that cannot read the certificate passes for "no renewal needed". */
    method RunRenewal(now: real, check: bool, ca: bool, restart: bool) returns (exitCode: nat)
      modifies this
      ensures View() == Act(old(View()), Timer(now, check, ca, restart))
      ensures exitCode == 0 <==> cert.Some? && (cert != old(cert) || !check || !NeedsRenewal(old(cert).value, now))
    {
      if cert.None? {
        return 1;
      }
      if check && NeedsRenewal(cert.value, now) {
        var renewed := ca && now < cert.value;
        if renewed {
          cert := Some(now + LIFETIME);
          if loaded.Some? {
            if restart {
              loaded := cert;
            }
          }
          return 0;
        } else {
          return 1;
        }
      } else {
        return 0;
      }
    }

    /** `assert_cert_usable`, then the agent loads the certificate. */
    method Launch(now: real, inspect: bool) returns (started: bool)
      modifies this`loaded
      ensures View() == Act(old(View()), StartAgent(now, inspect))
      ensures started <==> inspect && cert.Some? && now < cert.value
    {
      if !inspect || cert.None? {
        return false;
      }
      if cert.value <= now {
        return false;
      }
      loaded := cert;
      return true;
    }
  }

  // ---------- never lapsing ----------

  /** One run of the script, whether its check works and whether the CA answers. */
  datatype Attempt = Attempt(at: real, check: bool, ca: bool)

  function Renewed(cert: real, a: Attempt): real {
    Act(Device(Some(cert), None), Timer(a.at, a.check, a.ca, true)).cert.value
  }

  /** The run falls in the window and does nothing for the certificate. */
  predicate Fails(cert: real, a: Attempt) {
    NeedsRenewal(cert, a.at) && !(a.check && a.ca)
  }

  /** The certificate on disk at instant `t`. */
  function CertAt(cert: real, runs: seq<Attempt>, t: real): real
    decreases |runs|
  {
    if runs == [] || t < runs[0].at then cert else CertAt(Renewed(cert, runs[0]), runs[1..], t)
  }

  /** Runs follow `start`, and each other, within `period`. */
  ghost predicate Paced(start: real, runs: seq<Attempt>, period: real)
    decreases |runs|
  {
    runs != [] ==> start <= runs[0].at <= start + period && Paced(runs[0].at, runs[1..], period)
  }

  function LastAt(start: real, runs: seq<Attempt>): real {
    if runs == [] then start else runs[|runs| - 1].at
  }

  /** At most `k` attempts inside the window fail in a row, `failed` of which have
      happened already. */
  ghost predicate Tolerable(cert: real, runs: seq<Attempt>, k: nat, failed: nat)
    decreases |runs|
  {
    failed <= k &&
    (runs != [] ==>
       Tolerable(Renewed(cert, runs[0]), runs[1..], k, if Fails(cert, runs[0]) then failed + 1 else 0))
  }

  lemma {:induction false} NeverLapsesFrom(
      cert: real, start: real, runs: seq<Attempt>, period: real, k: nat, failed: nat, t: real)
    requires period >= 0.0 && Times(k + 1, period) < WINDOW
    requires WINDOW - Times(failed, period) <= cert - start
    requires Paced(start, runs, period) && Tolerable(cert, runs, k, failed)
    requires start <= t <= LastAt(start, runs) + period
    ensures t < CertAt(cert, runs, t)
    decreases |runs|
  {
    TimesGrows(failed + 1, k + 1, period);
    assert start + period < cert;
    if runs != [] && runs[0].at <= t {
      var next := if Fails(cert, runs[0]) then failed + 1 else 0;
      assert LastAt(runs[0].at, runs[1..]) == LastAt(start, runs);
      NeverLapsesFrom(Renewed(cert, runs[0]), runs[0].at, runs[1..], period, k, next, t);
    }
  }

  /** A certificate that had at least 48 hours left at `start` is usable at every
      instant up to one period after the last run, if runs are at most `period`
      apart, at most `k` attempts in a row fail, and `k + 1` periods are shorter
      than 48 hours. */
  lemma NeverLapses(cert: real, start: real, runs: seq<Attempt>, period: real, k: nat, t: real)
    requires period >= 0.0 && (k + 1) as real * period < 48.0
    requires 48.0 <= cert - start
    requires Paced(start, runs, period) && Tolerable(cert, runs, k, 0)
    requires start <= t <= LastAt(start, runs) + period
    ensures t < CertAt(cert, runs, t)
  {
    PeriodsFit(period, k, 48.0);
    NeverLapsesFrom(cert, start, runs, period, k, 0, t);
  }

  lemma PeriodsFit(period: real, k: nat, limit: real)
    requires (k + 1) as real * period < limit
    ensures Times(k + 1, period) < limit && Times(0, period) == 0.0
  {
    TimesIsProduct(k + 1, period);
  }

  /** `k` attempts the CA does not answer, one period apart. */
  function Unanswered(start: real, period: real, k: nat): seq<Attempt>
    decreases k
  {
    if k == 0 then [] else [Attempt(start + period, true, false)] + Unanswered(start + period, period, k - 1)
  }

  lemma {:induction false} UnansweredKeepsCert(cert: real, start: real, period: real, k: nat, failed: nat, t: real)
    requires period >= 0.0
    ensures Paced(start, Unanswered(start, period, k), period)
    ensures Tolerable(cert, Unanswered(start, period, k), failed + k, failed)
    ensures LastAt(start, Unanswered(start, period, k)) == start + Times(k, period)
    ensures CertAt(cert, Unanswered(start, period, k), t) == cert
    decreases k
  {
    if k > 0 {
      var runs, rest := Unanswered(start, period, k), Unanswered(start + period, period, k - 1);
      assert runs[1..] == rest && runs[0] == Attempt(start + period, true, false);
      UnansweredKeepsCert(cert, start + period, period, k - 1, failed + 1, t);
      UnansweredKeepsCert(cert, start + period, period, k - 1, 0, t);
      TolerableMore(cert, rest, k - 1, failed + k, 0);
      assert LastAt(start, runs) == LastAt(start + period, rest);
    }
  }

  lemma {:induction false} TolerableMore(cert: real, runs: seq<Attempt>, k: nat, more: nat, failed: nat)
    requires Tolerable(cert, runs, k, failed) && k <= more
    ensures Tolerable(cert, runs, more, failed)
    decreases |runs|
  {
    if runs != [] {
      TolerableMore(Renewed(cert, runs[0]), runs[1..], k, more, if Fails(cert, runs[0]) then failed + 1 else 0);
    }
  }

  /** The bound is exact: as soon as `k + 1` periods reach the window, runs that
      keep every assumption let a certificate with the full window left lapse. */
  lemma LapsesAtTheBound(period: real, k: nat)
    requires period >= 0.0 && 48.0 <= (k + 1) as real * period
    ensures var runs := Unanswered(0.0, period, k);
      var t := LastAt(0.0, runs) + period;
      Paced(0.0, runs, period) && Tolerable(48.0, runs, k, 0) && CertAt(48.0, runs, t) <= t
  {
    var t := LastAt(0.0, Unanswered(0.0, period, k)) + period;
    UnansweredKeepsCert(WINDOW, 0.0, period, k, 0, t);
    TimesIsProduct(k + 1, period);
  }

  /** Powering a node on once a week is not enough: freshly enrolled, switched on
      two days before the end (nothing to renew yet) and again a week later, it
      lapses although the CA would have answered every call. */
  lemma WeeklyPowerOnLapses()
    ensures var runs := [Attempt(120.0, true, true), Attempt(288.0, true, true)];
      Paced(0.0, runs, 168.0) && Tolerable(168.0, runs, 0, 0) && CertAt(168.0, runs, 288.0) == 168.0
  {
    var runs := [Attempt(120.0, true, true), Attempt(288.0, true, true)];
    assert runs[1..] == [runs[1]] && [runs[1]][1..] == [];
    assert Renewed(LIFETIME, runs[0]) == LIFETIME;
    assert Renewed(LIFETIME, runs[1]) == LIFETIME;
    assert Paced(120.0, [runs[1]], LIFETIME) && Tolerable(LIFETIME, [runs[1]], 0, 0);
    assert CertAt(LIFETIME, [runs[1]], 288.0) == LIFETIME;
  }

  // ---------- expiry is final ----------

  function TimeOf(a: Action): real {
    a.now
  }

  function ActAll(d: Device, actions: seq<Action>): Device
    decreases |actions|
  {
    if actions == [] then d else ActAll(Act(d, actions[0]), actions[1..])
  }

  /** After expiry no automated step, in any order and with any luck, changes the
      certificate or starts the agent; an agent that runs is one that was
      already running on what it had loaded. */
  lemma {:induction false} ExpiryIsFinal(d: Device, actions: seq<Action>)
    requires d.cert.Some?
    requires forall i :: 0 <= i < |actions| ==> !actions[i].ReEnrol? && d.cert.value <= TimeOf(actions[i])
    ensures ActAll(d, actions).cert == d.cert
    ensures ActAll(d, actions).loaded.Some? ==> ActAll(d, actions).loaded == d.loaded
    decreases |actions|
  {
    if actions != [] {
      ExpiryIsFinal(Act(d, actions[0]), actions[1..]);
    }
  }

  /** Re-enrolment recovers: the agent starts again at once. */
  lemma ReEnrolmentRecovers(d: Device, now: real)
    ensures ActAll(d, [ReEnrol(now), StartAgent(now, true)]) == Device(Some(now + 168.0), Some(now + 168.0))
  {
    assert [ReEnrol(now), StartAgent(now, true)][1..] == [StartAgent(now, true)];
    assert [StartAgent(now, true)][1..] == [];
    var renewed := Some(now + LIFETIME);
    assert ActAll(Act(Act(d, ReEnrol(now)), StartAgent(now, true)), []) == Device(renewed, renewed);
  }

  // ---------- what the running agent holds ----------

  /** A running agent holds the certificate that is on disk. */
  predicate AgentIsCurrent(d: Device) {
    d.loaded.Some? ==> d.loaded == d.cert
  }

  /** The certificate is renewed under a running agent that is not restarted. */
  predicate Misses(d: Device, a: Action) {
    Renews(d, a) && d.loaded.Some? && !a.restart
  }

  /** The agent is restarted by a renewal, started anew, or stopped. */
  predicate Reloads(d: Device, a: Action) {
    || (Renews(d, a) && a.restart)
    || (a.StartAgent? && a.inspect && d.cert.Some? && a.now < d.cert.value)
    || a.StopAgent?
  }

  function Before(d: Device, actions: seq<Action>, k: nat): Device
    requires k <= |actions|
  {
    ActAll(d, actions[..k])
  }

  lemma {:induction false} ActAllLast(d: Device, actions: seq<Action>)
    requires actions != []
    ensures ActAll(d, actions) == Act(Before(d, actions, |actions| - 1), actions[|actions| - 1])
    decreases |actions|
  {
    if |actions| == 1 {
      assert actions[..0] == [] && actions[1..] == [];
    } else {
      ActAllLast(Act(d, actions[0]), actions[1..]);
      assert actions[1..][..|actions| - 2] == actions[..|actions| - 1][1..];
    }
  }

  /** Renewal only ever postpones the end of validity. */
  lemma {:induction false} LoadedIsNoNewer(d: Device, actions: seq<Action>)
    requires AgentIsCurrent(d) || (d.cert.Some? && d.loaded.value <= d.cert.value)
    requires forall i :: 0 <= i < |actions| ==> !actions[i].ReEnrol?
    ensures var e := ActAll(d, actions); AgentIsCurrent(e) || (e.cert.Some? && e.loaded.value <= e.cert.value)
    decreases |actions|
  {
    if actions != [] {
      LoadedIsNoNewer(Act(d, actions[0]), actions[1..]);
    }
  }

  ghost predicate EveryMissIsMadeUp(d: Device, actions: seq<Action>) {
    forall k :: 0 <= k < |actions| && Misses(Before(d, actions, k), actions[k]) ==>
      exists j :: k < j < |actions| && Reloads(Before(d, actions, j), actions[j])
  }

  /** Over any automated run the agent ends up holding the certificate on disk if
      and only if every renewal it was not restarted for is followed by a restart,
      a start or a stop. */
  lemma {:induction false} AgentHoldsDiskCert(d: Device, actions: seq<Action>)
    requires AgentIsCurrent(d)
    requires forall i :: 0 <= i < |actions| ==> !actions[i].ReEnrol?
    ensures AgentIsCurrent(ActAll(d, actions)) <==> EveryMissIsMadeUp(d, actions)
    decreases |actions|
  {
    if actions != [] {
      var n := |actions| - 1;
      var front, last := actions[..n], actions[n];
      AgentHoldsDiskCert(d, front);
      LoadedIsNoNewer(d, front);
      ActAllLast(d, actions);
      assert forall k :: 0 <= k < n ==> front[..k] == actions[..k] && front[k] == actions[k];
      var e := Before(d, actions, n);
      assert AgentIsCurrent(Act(e, last)) <==> Reloads(e, last) || (AgentIsCurrent(e) && !Misses(e, last));
      hide ActAll, Act, AgentIsCurrent;
    }
  }

  ghost predicate IsLastRenewal(d: Device, runs: seq<Action>, k: nat)
    requires k < |runs|
  {
    && Renews(Before(d, runs, k), runs[k])
    && forall j :: k < j < |runs| ==> !Renews(Before(d, runs, j), runs[j])
  }

  /** The last run of the script that renewed also restarted the agent, or none
      renewed. */
  ghost predicate LastRenewalRestarted(d: Device, runs: seq<Action>) {
    forall k :: 0 <= k < |runs| && IsLastRenewal(d, runs, k) ==> runs[k].restart
  }

  /** For runs of the script alone, under a running agent. */
  lemma {:induction false} ScriptKeepsAgentCurrent(d: Device, runs: seq<Action>)
    requires d.loaded.Some? && AgentIsCurrent(d)
    requires forall i :: 0 <= i < |runs| ==> runs[i].Timer?
    ensures ActAll(d, runs).loaded.Some?
    ensures AgentIsCurrent(ActAll(d, runs)) <==> LastRenewalRestarted(d, runs)
    decreases |runs|
  {
    if runs != [] {
      var n := |runs| - 1;
      var front, last := runs[..n], runs[n];
      ScriptKeepsAgentCurrent(d, front);
      LoadedIsNoNewer(d, front);
      ActAllLast(d, runs);
      assert forall k :: 0 <= k < n ==> front[..k] == runs[..k] && front[k] == runs[k];
      var e := Before(d, runs, n);
      assert AgentIsCurrent(Act(e, last)) <==> if Renews(e, last) then last.restart else AgentIsCurrent(e);
      hide ActAll, Act, AgentIsCurrent;
    }
  }

  /** One failed restart strands the agent on the old certificate: no later run
      of the script restarts it until the new certificate is in its own window,
      which is after the old one has expired. */
  lemma {:induction false} FailedRestartStrandsAgent(d: Device, now: real, runs: seq<Action>)
    requires d.cert.Some? && d.loaded == d.cert && NeedsRenewal(d.cert.value, now) && now < d.cert.value
    requires forall i :: 0 <= i < |runs| ==> runs[i].Timer? && now <= runs[i].now <= now + 120.0
    ensures ActAll(Act(d, Timer(now, true, true, false)), runs) == Device(Some(now + 168.0), d.cert)
    ensures d.cert.value < now + 48.0
    decreases |runs|
  {
    var e := Act(d, Timer(now, true, true, false));
    if runs != [] {
      assert Act(e, runs[0]) == e;
      FailedRestartStrandsAgent(d, now, runs[1..]);
    }
  }
}
