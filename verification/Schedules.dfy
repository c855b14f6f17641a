/** Loops that try, sleep and try again, in real time. */
module Schedules {
  import opened Durations

  /** One try: from `start` to `end`, with its outcome and what it carried. */
  datatype Turn<T> = Turn(start: real, end: real, ok: bool, carried: T)

  /** Each try takes at most `f`, each sleep at most `i`. */
  ghost predicate Timed<T>(turns: seq<Turn<T>>, f: real, i: real) {
    && (forall n :: 0 <= n < |turns| ==> turns[n].start <= turns[n].end <= turns[n].start + f)
    && (forall n :: 0 < n < |turns| ==> turns[n - 1].end <= turns[n].start <= turns[n - 1].end + i)
  }

  ghost predicate SuccessIn<T>(turns: seq<Turn<T>>, a: nat, b: nat) {
    exists j :: a <= j <= b && j < |turns| && turns[j].ok
  }

  /** Among any `k + 1` turns in a row one succeeds. */
  ghost predicate FailsAtMost<T>(turns: seq<Turn<T>>, k: nat) {
    forall a: nat, b: nat :: b == a + k && b < |turns| ==> SuccessIn(turns, a, b)
  }

  lemma {:induction false} StartsInOrder<T>(turns: seq<Turn<T>>, f: real, i: real, a: nat, b: nat)
    requires Timed(turns, f, i) && a <= b < |turns|
    ensures turns[a].start <= turns[b].start
  {
    if a < b {
      StartsInOrder(turns, f, i, a, b - 1);
      assert turns[b - 1].end <= turns[b].start;
    }
  }

  lemma {:induction false} StartsWithin<T>(turns: seq<Turn<T>>, f: real, i: real, a: nat, m: nat)
    requires Timed(turns, f, i) && a + m < |turns|
    ensures turns[a + m].start <= turns[a].start + Times(m, f + i)
  {
    if m > 0 {
      StartsWithin(turns, f, i, a, m - 1);
      assert turns[a + m].start <= turns[a + m - 1].end + i;
    }
  }
}
