/** The revoked-serial cache and how far it lags behind the CA
    (controller/app/core/revocation.py). Times are reals in any one unit. */
module Revocation {
  import opened Wrappers
  import opened Security
  import opened Requests
  import opened Durations
  import opened Schedules
  import Controller

  /** What one round of the loop got: a CRL, or an exception. */
  type Fetched = Option<set<nat>>

  /** The result of the last fetch that succeeded, or `initial`. */
  function LastGood(initial: set<nat>, rounds: seq<Fetched>): set<nat> {
    if rounds == [] then initial
    else if rounds[|rounds| - 1].Some? then rounds[|rounds| - 1].value
    else LastGood(initial, rounds[..|rounds| - 1])
  }

  class Cache {
    var revoked: set<nat>

    constructor ()
      ensures revoked == {}
    {
      revoked := {};
    }

    /** The refresh loop over the rounds it has lived through: a failed fetch
        keeps the last good cache. */
    method PeriodicRefresh(rounds: seq<Fetched>)
      modifies this
      ensures revoked == LastGood(old(revoked), rounds)
    {
      for i := 0 to |rounds|
        invariant revoked == LastGood(old(revoked), rounds[..i])
      {
        assert rounds[..i + 1][..i] == rounds[..i];
        match rounds[i] {
          case Some(serials) => revoked := serials;
          case None =>
        }
      }
      assert rounds[..|rounds|] == rounds;
    }
  }

  /** The cache is the CRL of the last success, and of no other round. */
  lemma {:induction false} CacheIsLastSuccess(initial: set<nat>, rounds: seq<Fetched>, i: nat)
    requires i < |rounds| && rounds[i].Some?
    requires forall j :: i < j < |rounds| ==> rounds[j].None?
    ensures LastGood(initial, rounds) == rounds[i].value
  {
    if i < |rounds| - 1 {
      CacheIsLastSuccess(initial, rounds[..|rounds| - 1], i);
    }
  }

  // ---------- timed rounds ----------

  /** What a fetch that succeeds carries: the CRL the CA served at `sampled`. */
  datatype Crl = Crl(sampled: real, serials: set<nat>)

  type Round = Turn<Crl>

  ghost predicate SampledInside(rounds: seq<Round>) {
    forall n :: 0 <= n < |rounds| ==> rounds[n].start <= rounds[n].carried.sampled <= rounds[n].end
  }

  /** The CA lists `serial` in every CRL it serves from `from` until `until`. */
  ghost predicate Lists(rounds: seq<Round>, serial: nat, from: real, until: real) {
    forall n :: 0 <= n < |rounds| && rounds[n].ok && from <= rounds[n].carried.sampled <= until ==>
      serial in rounds[n].carried.serials
  }

  /** The cache at instant `t`. */
  function CacheAt(rounds: seq<Round>, t: real): set<nat> {
    if rounds == [] then {}
    else
      var last := rounds[|rounds| - 1];
      if last.end <= t && last.ok then last.carried.serials else CacheAt(rounds[..|rounds| - 1], t)
  }

  /** The results of the rounds that were over by `t`, oldest first. */
  function Fetches(rounds: seq<Round>, t: real): seq<Fetched> {
    if rounds == [] then []
    else
      var last := rounds[|rounds| - 1];
      Fetches(rounds[..|rounds| - 1], t)
      + if last.end <= t then [if last.ok then Some(last.carried.serials) else None] else []
  }

  /** The cache at an instant is what the loop has made of the rounds so far. */
  lemma {:induction false} CacheAtIsLastGood(rounds: seq<Round>, t: real)
    ensures CacheAt(rounds, t) == LastGood({}, Fetches(rounds, t))
  {
    if rounds != [] {
      var front, last := rounds[..|rounds| - 1], rounds[|rounds| - 1];
      CacheAtIsLastGood(front, t);
      if last.end <= t {
        assert Fetches(rounds, t)[..|Fetches(rounds, t)| - 1] == Fetches(front, t);
      } else {
        assert Fetches(rounds, t) == Fetches(front, t);
      }
    }
  }

  /** Once one good round has ended, the cache stays good. */
  lemma {:induction false} GoodOnceGood(rounds: seq<Round>, f: real, i: real, t: real, serial: nat, j: nat)
    requires Timed(rounds, f, i) && j < |rounds| && rounds[j].end <= t && rounds[j].ok
    requires forall n :: j <= n < |rounds| && rounds[n].end <= t && rounds[n].ok ==> serial in rounds[n].carried.serials
    ensures serial in CacheAt(rounds, t)
  {
    var last := |rounds| - 1;
    if !(rounds[last].end <= t && rounds[last].ok) {
      GoodOnceGood(rounds[..last], f, i, t, serial, j);
    }
  }

  /** The first round that starts at or after `from` starts within one fetch
      and one sleep of it. */
  lemma {:induction false} FirstRoundAfter(rounds: seq<Round>, f: real, i: real, from: real, n: nat) returns (a: nat)
    requires Timed(rounds, f, i) && n < |rounds| && from <= rounds[n].start && f >= 0.0 && i > 0.0
    ensures a < |rounds| && from <= rounds[a].start
    ensures rounds[a].start <= from + f + i || (a == 0 && rounds[0].start >= from)
  {
    a := n;
    while a > 0 && from <= rounds[a - 1].start
      invariant a < |rounds| && from <= rounds[a].start
    {
      a := a - 1;
    }
    if a > 0 {
      assert rounds[a].start <= rounds[a - 1].end + i;
    }
  }

  function Later(a: real, b: real): real {
    if a < b then b else a
  }

  /** `k` more rounds fit in the budget after the first one past `from`. */
  lemma RoomForRetries(rounds: seq<Round>, f: real, i: real, d: real, k: nat, from: real, t: real) returns (a: nat)
    requires rounds != [] && Timed(rounds, f, i) && f >= 0.0 && i > 0.0 && d == f + i
    requires t <= rounds[|rounds| - 1].end
    requires Later(from, rounds[0].start) + d + Times(k, d) + f <= t
    ensures a + k < |rounds| && from <= rounds[a].start <= Later(from, rounds[0].start) + d
  {
    var last := |rounds| - 1;
    TimesGrows(0, k, d);
    a := FirstRoundAfter(rounds, f, i, from, last);
    if a + k > last {
      StartsWithin(rounds, f, i, a, last - a);
      TimesGrows(last - a + 1, k, d);
      assert false;
    }
  }

  /** Some round that started after `from` succeeds within the budget. */
  lemma SuccessInBudget(rounds: seq<Round>, f: real, i: real, d: real, k: nat, from: real, t: real) returns (j: nat)
    requires rounds != [] && Timed(rounds, f, i) && FailsAtMost(rounds, k) && f >= 0.0 && i > 0.0 && d == f + i
    requires t <= rounds[|rounds| - 1].end
    requires Later(from, rounds[0].start) + d + Times(k, d) + f <= t
    ensures j < |rounds| && rounds[j].ok && rounds[j].end <= t && from <= rounds[j].start
  {
    var a := RoomForRetries(rounds, f, i, d, k, from, t);
    assert SuccessIn(rounds, a, a + k);
    j :| a <= j <= a + k && j < |rounds| && rounds[j].ok;
    StartsInOrder(rounds, f, i, a, j);
    StartsWithin(rounds, f, i, a, j - a);
    TimesGrows(j - a, k, d);
  }

  /** Bounded lag. A serial the CA lists from `from` on is in the cache at every
      instant from k+1 sleeps and k+2 fetches later (counted from the first fetch
      if the loop started after `from`), for as long as the CA lists it.
      `rounds` is any stretch of the loop's rounds that reaches past `t`. */
  lemma BoundedLag(rounds: seq<Round>, f: real, i: real, k: nat, serial: nat, from: real, until: real, t: real)
    requires rounds != [] && Timed(rounds, f, i) && SampledInside(rounds) && FailsAtMost(rounds, k)
    requires f >= 0.0 && i > 0.0
    requires Lists(rounds, serial, from, until)
    requires t <= rounds[|rounds| - 1].end && t <= until
    requires Later(from, rounds[0].start) + (k + 1) as real * i + (k + 2) as real * f <= t
    ensures serial in CacheAt(rounds, t)
  {
    TimesOfSum(k, f, i);
    var j := SuccessInBudget(rounds, f, i, f + i, k, from, t);
    forall n | j <= n < |rounds| && rounds[n].end <= t && rounds[n].ok
      ensures serial in rounds[n].carried.serials
    {
      StartsInOrder(rounds, f, i, j, n);
    }
    GoodOnceGood(rounds, f, i, t, serial, j);
  }

  /** From then on every request that shows the certificate is refused, whatever
      it asks, and leaves the node table alone. */
  lemma RevokedIsRejectedInTime(
      rounds: seq<Round>, f: real, i: real, k: nat, serial: nat, from: real, until: real, t: real,
      s: Controller.Store, r: Request, now: int)
    requires rounds != [] && Timed(rounds, f, i) && SampledInside(rounds) && FailsAtMost(rounds, k)
    requires f >= 0.0 && i > 0.0
    requires Lists(rounds, serial, from, until)
    requires t <= rounds[|rounds| - 1].end && t <= until
    requires Later(from, rounds[0].start) + (k + 1) as real * i + (k + 2) as real * f <= t
    requires s.revoked == CacheAt(rounds, t)
    requires Authenticate(r.headers).Known? && Authenticate(r.headers).id.serial == Some(serial)
    ensures Controller.Respond(s, r) == RevokedCert
    ensures Controller.Serve(s, r, now).nodes == s.nodes
  {
    BoundedLag(rounds, f, i, k, serial, from, until, t);
    Controller.ServeRevoked(s, r, now, Authenticate(r.headers).id);
  }

  // ---------- the bound is tight ----------

  /** A fetch sampled just before `from`, then `k` failures, then a success. */
  function LateRounds(f: real, i: real, k: nat, serial: nat, first: real): seq<Round> {
    seq(k + 2, n requires 0 <= n < k + 2 =>
      var start := first + Times(n, f + i);
      Turn(start, start + f, n == 0 || n == k + 1, Crl(start, if n == 0 then {} else {serial})))
  }

  lemma {:induction false} StillMissing(rounds: seq<Round>, t: real, serial: nat)
    requires forall n :: 0 <= n < |rounds| && rounds[n].end <= t && rounds[n].ok ==>
               serial !in rounds[n].carried.serials
    ensures serial !in CacheAt(rounds, t)
  {
    if rounds != [] {
      StillMissing(rounds[..|rounds| - 1], t, serial);
    }
  }

  lemma LateRoundsTimed(f: real, i: real, k: nat, serial: nat, first: real)
    requires f >= 0.0 && i > 0.0
    ensures Timed(LateRounds(f, i, k, serial, first), f, i) && SampledInside(LateRounds(f, i, k, serial, first))
  {
    var rounds := LateRounds(f, i, k, serial, first);
    forall n | 0 < n < |rounds| ensures rounds[n - 1].end <= rounds[n].start <= rounds[n - 1].end + i {
      assert Times(n, f + i) == Times(n - 1, f + i) + (f + i);
    }
  }

  lemma LateRoundsFail(f: real, i: real, k: nat, serial: nat, first: real)
    ensures FailsAtMost(LateRounds(f, i, k, serial, first), k)
  {
    var rounds := LateRounds(f, i, k, serial, first);
    forall a: nat, b: nat | b == a + k && b < |rounds| ensures SuccessIn(rounds, a, b) {
      assert if a == 0 then rounds[0].ok else rounds[k + 1].ok;
    }
  }

  lemma LateRoundsMiss(f: real, i: real, k: nat, serial: nat, first: real, t: real)
    requires t < LateRounds(f, i, k, serial, first)[k + 1].end
    ensures serial !in CacheAt(LateRounds(f, i, k, serial, first), t)
  {
    StillMissing(LateRounds(f, i, k, serial, first), t, serial);
  }

  lemma LateRoundsEnd(f: real, i: real, k: nat, serial: nat, first: real)
    ensures LateRounds(f, i, k, serial, first)[0].start == first
    ensures LateRounds(f, i, k, serial, first)[k + 1].end == first + (k + 1) as real * i + (k + 2) as real * f
  {
    TimesOfSum(k, f, i);
  }

  /** No smaller budget would do: however little `slack` is taken off it, these
      rounds keep all the assumptions and still let the certificate pass. */
  lemma LagIsTight(f: real, i: real, k: nat, serial: nat, from: real, slack: real)
    requires f >= 0.0 && i > 0.0 && 0.0 < slack
    ensures var rounds := LateRounds(f, i, k, serial, from - slack / 2.0);
      var t := from + (k + 1) as real * i + (k + 2) as real * f - slack;
      && Timed(rounds, f, i) && SampledInside(rounds) && FailsAtMost(rounds, k) && Lists(rounds, serial, from, t)
      && rounds[0].start <= from && t <= rounds[|rounds| - 1].end
      && serial !in CacheAt(rounds, t)
  {
    var first := from - slack / 2.0;
    LateRoundsTimed(f, i, k, serial, first);
    LateRoundsFail(f, i, k, serial, first);
    LateRoundsEnd(f, i, k, serial, first);
    var rounds := LateRounds(f, i, k, serial, first);
    assert rounds[0].carried.sampled == rounds[0].start;
    LateRoundsMiss(f, i, k, serial, first, from + (k + 1) as real * i + (k + 2) as real * f - slack);
    hide Timed, FailsAtMost, CacheAt;
  }
}
