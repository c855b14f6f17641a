/** The agent's registration retries and its beat loop
    (node-agent/app/heartbeat.py), and the age the controller shows for it
    (controller/app/core/metrics_hooks.py). */
module Heartbeats {
  import opened Wrappers
  import opened Durations
  import opened Schedules

  const FIRST := 2.0
  const FACTOR := 1.8
  const CAP := 60.0
  const ATTEMPTS := 10

  function Min(a: real, b: real): real {
    if a <= b then a else b
  }

  function Power(base: real, n: nat): real {
    if n == 0 then 1.0 else Power(base, n - 1) * base
  }

  /** The delay after failure number `k`, counted from zero. */
  function Delay(k: nat): real {
    Min(FIRST * Power(FACTOR, k), CAP)
  }

  function TotalDelay(n: nat): real {
    if n == 0 then 0.0 else TotalDelay(n - 1) + Delay(n - 1)
  }

  lemma {:induction false} PowerIsPositive(n: nat)
    ensures Power(FACTOR, n) >= 1.0
  {
    if n > 0 {
      PowerIsPositive(n - 1);
    }
  }

  /** Capping every step comes to the same as capping once. */
  lemma NextDelay(k: nat)
    ensures Min(Delay(k) * FACTOR, CAP) == Delay(k + 1)
    ensures FIRST <= Delay(k) <= Delay(k + 1) <= CAP
  {
    PowerIsPositive(k);
    assert Power(FACTOR, k + 1) == Power(FACTOR, k) * FACTOR;
  }

  /** The delays as the agent sleeps them, and what ten failures cost in all. */
  lemma DelaysAre(k: nat)
    ensures Delay(0) == 2.0 && Delay(1) == 3.6 && Delay(2) == 6.48 && Delay(3) == 11.664
    ensures Delay(4) == 20.9952 && Delay(5) == 37.79136
    ensures 6 <= k ==> Delay(k) == 60.0
    ensures TotalDelay(ATTEMPTS) == 322.53056
  {
    PowersAre();
    PowerGrows(6, 6);
    PowerGrows(6, 7);
    PowerGrows(6, 8);
    PowerGrows(6, 9);
    if 6 <= k {
      PowerGrows(6, k);
    }
    hide Power;
    assert TotalDelay(6) == 82.53056 by { FirstSix(); }
    assert TotalDelay(8) == TotalDelay(6) + Delay(6) + Delay(7);
    assert TotalDelay(10) == TotalDelay(8) + Delay(8) + Delay(9);
  }

  lemma PowersAre()
    ensures Power(1.8, 0) == 1.0 && Power(1.8, 1) == 1.8 && Power(1.8, 2) == 3.24 && Power(1.8, 3) == 5.832
    ensures Power(1.8, 4) == 10.4976 && Power(1.8, 5) == 18.89568 && Power(1.8, 6) == 34.012224
  {
    assert Power(1.8, 2) == Power(1.8, 1) * 1.8;
    assert Power(1.8, 4) == Power(1.8, 3) * 1.8;
    assert Power(1.8, 6) == Power(1.8, 5) * 1.8;
  }

  lemma {:induction false} PowerGrows(m: nat, n: nat)
    requires m <= n
    ensures Power(FACTOR, m) <= Power(FACTOR, n)
    decreases n
  {
    if m < n {
      PowerGrows(m, n - 1);
      PowerIsPositive(n - 1);
    }
  }

  lemma FirstSix()
    ensures TotalDelay(6) == 82.53056
  {
    PowersAre();
    hide Power;
    assert TotalDelay(2) == Delay(0) + Delay(1);
    assert TotalDelay(4) == TotalDelay(2) + Delay(2) + Delay(3);
    assert TotalDelay(6) == TotalDelay(4) + Delay(4) + Delay(5);
  }

  /** The number of failures before the first success, at most `n`. */
  function FailuresFirst(outcomes: seq<bool>, n: nat): nat
    requires n <= |outcomes|
    decreases n
  {
    if n == 0 then 0
    else if outcomes[0] then 0
    else 1 + FailuresFirst(outcomes[1..], n - 1)
  }

  lemma {:induction false} FailuresFirstIs(outcomes: seq<bool>, n: nat, f: nat)
    requires f <= n <= |outcomes|
    requires forall i :: 0 <= i < f ==> !outcomes[i]
    requires f == n || outcomes[f]
    ensures FailuresFirst(outcomes, n) == f
    decreases n
  {
    if f > 0 {
      FailuresFirstIs(outcomes[1..], n - 1, f - 1);
    }
  }

  /** `_attempt_register`: `outcomes[i]` says whether attempt `i` would return.
      The agent sleeps after every failed attempt, the last one included, and
      gives up after the tenth. */
  method AttemptRegister(outcomes: seq<bool>) returns (registered: bool, slept: real)
    requires |outcomes| == ATTEMPTS
    ensures registered == (FailuresFirst(outcomes, ATTEMPTS) < ATTEMPTS)
    ensures slept == TotalDelay(FailuresFirst(outcomes, ATTEMPTS))
  {
    var delay := FIRST;
    slept := 0.0;
    assert Power(FACTOR, 0) == 1.0;
    for attempt := 0 to ATTEMPTS
      invariant forall i :: 0 <= i < attempt ==> !outcomes[i]
      invariant delay == Delay(attempt)
      invariant slept == TotalDelay(attempt)
    {
      if outcomes[attempt] {
        FailuresFirstIs(outcomes, ATTEMPTS, attempt);
        return true, slept;
      }
      slept := slept + delay;
      NextDelay(attempt);
      delay := Min(delay * FACTOR, CAP);
    }
    FailuresFirstIs(outcomes, ATTEMPTS, ATTEMPTS);
    registered := false;
  }

  /** What ten failures cost: bounded below by the first delays and above by ten caps. */
  lemma {:induction false} TotalDelayBounds(n: nat)
    ensures n as real * FIRST <= TotalDelay(n) <= n as real * CAP
  {
    if n > 0 {
      TotalDelayBounds(n - 1);
      NextDelay(n - 1);
    }
  }

  // ---------- freshness of the last heartbeat ----------

  /** The time the controller writes for a beat, and when its commit lands, if it
      does. A failed call may have been committed, even after it has ended. */
  datatype Stamp = Stamp(at: real, landed: Option<real>)

  type Attempt = Turn<Stamp>

  /** The stamp is taken after the beat is sent, a commit lands within `h` of that,
      and a beat the agent counts as a success was committed before it ended. */
  ghost predicate Stamped(beats: seq<Attempt>, h: real) {
    forall n :: 0 <= n < |beats| ==>
      && beats[n].start <= beats[n].carried.at
      && (beats[n].ok ==> beats[n].carried.landed.Some? && beats[n].carried.landed.value <= beats[n].end)
      && (beats[n].carried.landed.Some? ==> beats[n].carried.at <= beats[n].carried.landed.value <= beats[n].start + h)
  }

  /** Every commit lands before the next beat is sent. */
  ghost predicate NeverLate(beats: seq<Attempt>) {
    forall n :: 0 < n < |beats| && beats[n - 1].carried.landed.Some? ==>
      beats[n - 1].carried.landed.value <= beats[n].start
  }

  predicate Landed(b: Attempt, t: real) {
    b.carried.landed.Some? && b.carried.landed.value <= t
  }

  /** The beat whose commit was the last to land by `t`. */
  function LastLanded(beats: seq<Attempt>, t: real): (r: Option<nat>)
    ensures r.Some? ==> r.value < |beats| && Landed(beats[r.value], t)
    ensures forall n :: 0 <= n < |beats| && Landed(beats[n], t) ==>
      && r.Some? && beats[n].carried.landed.value <= beats[r.value].carried.landed.value
      && (r.value < n ==> beats[n].carried.landed.value < beats[r.value].carried.landed.value)
  {
    if beats == [] then None
    else
      var m := |beats| - 1;
      var before := LastLanded(beats[..m], t);
      if Landed(beats[m], t)
         && (before.None? || beats[before.value].carried.landed.value <= beats[m].carried.landed.value)
      then Some(m)
      else before
  }

  /** `last_heartbeat_at` as the gauge refresh reads it at `t`: each commit writes
      its own stamp over the one before. */
  function StampAt(beats: seq<Attempt>, t: real, created: real): real {
    match LastLanded(beats, t)
    case None => created
    case Some(n) => beats[n].carried.at
  }

  /** A late commit can bring back an older stamp, but one at most `h` older. */
  lemma StampNoOlder(beats: seq<Attempt>, pause: real, l: real, h: real, j: nat, t: real, created: real)
    requires Timed(beats, l, pause) && Stamped(beats, h) && h >= 0.0
    requires j < |beats| && beats[j].ok && beats[j].end <= t
    ensures beats[j].start - h <= StampAt(beats, t, created)
    ensures NeverLate(beats) ==> beats[j].start <= StampAt(beats, t, created)
  {
    assert Landed(beats[j], t);
    var r := LastLanded(beats, t).value;
    hide LastLanded;
    if j <= r {
      StartsInOrder(beats, l, pause, j, r);
    } else {
      StartsInOrder(beats, l, pause, r + 1, j);
      if NeverLate(beats) {
        assert false;
      }
    }
  }

  /** The last success that was over by `t`. */
  lemma LastSuccess(beats: seq<Attempt>, t: real, first: nat) returns (j: nat)
    requires first < |beats| && beats[first].ok && beats[first].end <= t
    ensures first <= j < |beats| && beats[j].ok && beats[j].end <= t
    ensures forall n :: j < n < |beats| && beats[n].ok ==> t < beats[n].end
  {
    j := |beats| - 1;
    while !(beats[j].ok && beats[j].end <= t)
      invariant first <= j < |beats|
      invariant forall n :: j < n < |beats| && beats[n].ok ==> t < beats[n].end
      decreases j
    {
      j := j - 1;
    }
  }

  /** The last success was sent at most `m + 1` rounds and one request ago. */
  lemma SuccessWithin(beats: seq<Attempt>, pause: real, l: real, m: nat, first: nat, t: real) returns (j: nat)
    requires Timed(beats, l, pause) && FailsAtMost(beats, m) && pause >= 0.0 && l >= 0.0
    requires first < |beats| && beats[first].ok && beats[first].end <= t <= beats[|beats| - 1].end
    ensures j < |beats| && beats[j].ok && beats[j].end <= t
    ensures t - beats[j].start <= Times(m + 1, l + pause) + l
  {
    j := LastSuccess(beats, t, first);
    var n := |beats| - 1;
    if j + 1 + m < |beats| {
      assert SuccessIn(beats, j + 1, j + 1 + m);
      n :| j + 1 <= n <= j + 1 + m && n < |beats| && beats[n].ok;
    }
    StartsWithin(beats, l, pause, j, n - j);
    TimesGrows(n - j, m + 1, l + pause);
  }

  lemma AgeWithin(
      beats: seq<Attempt>, pause: real, l: real, h: real, m: nat, first: nat, t: real, created: real)
    requires Timed(beats, l, pause) && Stamped(beats, h) && FailsAtMost(beats, m)
    requires pause >= 0.0 && l >= 0.0 && h >= 0.0
    requires first < |beats| && beats[first].ok && beats[first].end <= t <= beats[|beats| - 1].end
    ensures t - StampAt(beats, t, created) <= Times(m + 1, l + pause) + l + h
    ensures NeverLate(beats) ==> t - StampAt(beats, t, created) <= Times(m + 1, l + pause) + l
  {
    var j := SuccessWithin(beats, pause, l, m, first, t);
    StampNoOlder(beats, pause, l, h, j, t, created);
  }

  /** After the first successful beat, the age shown for the node is never more
      than (m+1) rounds plus one request, however long the run, if no commit lands
      after the next beat was sent. A commit may outlive its beat by more than
      that, up to `h` from its start: then an older stamp may overwrite a newer
      one, and costs at most `h`. `pause` is the interval plus the jitter, a
      `round` a pause and a request; `beats` is any stretch of the loop that
      reaches past `t`. */
  lemma AgeIsBounded(
      beats: seq<Attempt>, pause: real, l: real, h: real, round: real, m: nat, first: nat, t: real, created: real)
    requires Timed(beats, l, pause) && Stamped(beats, h) && FailsAtMost(beats, m)
    requires pause >= 0.0 && l >= 0.0 && h >= 0.0 && round == l + pause
    requires first < |beats| && beats[first].ok && beats[first].end <= t <= beats[|beats| - 1].end
    ensures t - StampAt(beats, t, created) <= (m + 1) as real * round + l + h
    ensures NeverLate(beats) ==> t - StampAt(beats, t, created) <= (m + 1) as real * round + l
  {
    AgeWithin(beats, pause, l, h, m, first, t, created);
    TimesIsProduct(m + 1, round);
  }

  /** Whenever the commit of a beat is the last to land after that of a later beat
      with a newer stamp was, it takes the stamp back; only a late commit can. */
  lemma LateCommitBringsBackOldStamp(
      beats: seq<Attempt>, l: real, pause: real, h: real, a: nat, b: nat, t: real, later: real, created: real)
    requires Timed(beats, l, pause) && Stamped(beats, h) && a < b < |beats| && t <= later
    requires LastLanded(beats, t) == Some(b) && LastLanded(beats, later) == Some(a)
    requires beats[a].carried.at < beats[b].carried.at
    ensures StampAt(beats, later, created) < StampAt(beats, t, created)
    ensures !NeverLate(beats)
  {
    StartsInOrder(beats, l, pause, a + 1, b);
    assert Landed(beats[b], later);
    assert beats[a + 1].start < beats[(a + 1) - 1].carried.landed.value;
  }

  lemma {:induction false} StampsInOrder(beats: seq<Attempt>, l: real, pause: real, h: real, a: nat, b: nat)
    requires Timed(beats, l, pause) && Stamped(beats, h) && NeverLate(beats) && a <= b < |beats|
    requires beats[a].carried.landed.Some?
    ensures beats[a].carried.at <= beats[b].carried.at
  {
    if a < b {
      StartsInOrder(beats, l, pause, a + 1, b);
      assert beats[(a + 1) - 1].carried.landed.value <= beats[a + 1].start;
    }
  }

  /** If every commit lands before the next beat is sent, the stamp never goes back. */
  lemma StampNeverGoesBack(beats: seq<Attempt>, l: real, pause: real, h: real, t: real, later: real, created: real)
    requires Timed(beats, l, pause) && Stamped(beats, h) && NeverLate(beats) && t <= later
    requires LastLanded(beats, t).Some?
    ensures StampAt(beats, t, created) <= StampAt(beats, later, created)
  {
    var a := LastLanded(beats, t).value;
    assert Landed(beats[a], later);
    var b := LastLanded(beats, later).value;
    hide LastLanded;
    if a <= b {
      StampsInOrder(beats, l, pause, h, a, b);
    } else {
      StartsInOrder(beats, l, pause, b + 1, a);
      assert false;
    }
  }

  /** Sleeping at least as long as a commit can take keeps every commit in time. */
  lemma LongPausesAreNeverLate(beats: seq<Attempt>, pause: real, l: real, h: real)
    requires Timed(beats, l, pause) && Stamped(beats, h)
    requires forall n :: 0 < n < |beats| ==> beats[n - 1].end + h <= beats[n].start
    ensures NeverLate(beats)
  {
  }
}
