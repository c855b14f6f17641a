/** Reading the audit log page by page while it grows
    (controller/app/api/audit.py). */
module Paging {
  import opened Wrappers
  import opened Tables

  datatype Filter = Filter(actorCn: Option<string>, action: Option<AuditAction>, result: Option<AuditResult>)

  /** An absent or empty actor parameter does not filter. */
  predicate Matches(f: Filter, row: AuditRow) {
    && (f.actorCn.None? || f.actorCn.value == "" || f.actorCn.value == row.actorCn)
    && (f.action.None? || f.action.value == row.action)
    && (f.result.None? || f.result.value == row.result)
  }

  /** Puts a row in front of the first row that is not newer. */
  function Insert(row: AuditRow, view: seq<AuditRow>): seq<AuditRow> {
    if view == [] || view[0].timestamp <= row.timestamp then [row] + view
    else [view[0]] + Insert(row, view[1..])
  }

  /** The log newest first; rows with equal timestamps, latest insert first. */
  function NewestFirst(log: seq<AuditRow>): seq<AuditRow> {
    if log == [] then [] else Insert(log[|log| - 1], NewestFirst(log[..|log| - 1]))
  }

  function Select(f: Filter, view: seq<AuditRow>): seq<AuditRow> {
    if view == [] then [] else (if Matches(f, view[0]) then [view[0]] else []) + Select(f, view[1..])
  }

  function Selected(f: Filter, log: seq<AuditRow>): seq<AuditRow> {
    Select(f, NewestFirst(log))
  }

  function Page(rows: seq<AuditRow>, offset: nat, limit: nat): seq<AuditRow> {
    var from := if offset < |rows| then offset else |rows|;
    var upto := if from + limit < |rows| then from + limit else |rows|;
    rows[from..upto]
  }

  /** `list_audit_events`. */
  function ListEvents(log: seq<AuditRow>, f: Filter, offset: nat, limit: nat): seq<AuditRow> {
    Page(Selected(f, log), offset, limit)
  }

  // ---------- the order ----------

  ghost predicate IsNewestFirst(view: seq<AuditRow>) {
    forall i, j :: 0 <= i < j < |view| ==> view[j].timestamp <= view[i].timestamp
  }

  lemma {:induction false} InsertPermutes(row: AuditRow, view: seq<AuditRow>)
    ensures multiset(Insert(row, view)) == multiset(view) + multiset{row}
  {
    if view != [] {
      assert view == [view[0]] + view[1..];
      InsertPermutes(row, view[1..]);
    }
  }

  /** The new row and the view split around it, so the order is kept. */
  lemma InsertSorts(row: AuditRow, view: seq<AuditRow>)
    requires IsNewestFirst(view)
    ensures IsNewestFirst(Insert(row, view))
  {
    var p := InsertPosition(row, view);
    hide Insert;
  }

  /** The endpoint lists the log's own rows, newest first. */
  lemma {:induction false} ListedNewestFirst(log: seq<AuditRow>)
    ensures IsNewestFirst(NewestFirst(log))
    ensures multiset(NewestFirst(log)) == multiset(log)
  {
    if log != [] {
      var front := log[..|log| - 1];
      ListedNewestFirst(front);
      InsertSorts(log[|log| - 1], NewestFirst(front));
      InsertPermutes(log[|log| - 1], NewestFirst(front));
      assert log == front + [log[|log| - 1]];
    }
  }

  /** Filtering keeps exactly the matching rows, in order. */
  lemma {:induction false} SelectOfConcat(f: Filter, a: seq<AuditRow>, b: seq<AuditRow>)
    ensures Select(f, a + b) == Select(f, a) + Select(f, b)
  {
    if a == [] {
      assert a + b == b;
    } else {
      assert (a + b)[1..] == a[1..] + b;
      SelectOfConcat(f, a[1..], b);
    }
  }

  // ---------- what the parameters ask for ----------

  /** The row has the value of every parameter that is given; an empty actor counts
      as not given. */
  predicate IsWanted(row: AuditRow, actorCn: Option<string>, action: Option<AuditAction>, result: Option<AuditResult>) {
    && (actorCn.Some? && actorCn.value != "" ==> row.actorCn == actorCn.value)
    && (action.Some? ==> row.action == action.value)
    && (result.Some? ==> row.result == result.value)
  }

  lemma {:induction false} SelectCounts(f: Filter, view: seq<AuditRow>, row: AuditRow)
    ensures multiset(Select(f, view))[row]
         == if IsWanted(row, f.actorCn, f.action, f.result) then multiset(view)[row] else 0
  {
    if view != [] {
      SelectCounts(f, view[1..], row);
      assert view == [view[0]] + view[1..];
    }
  }

  lemma {:induction false} SelectKeepsOrder(f: Filter, view: seq<AuditRow>)
    requires IsNewestFirst(view)
    ensures IsNewestFirst(Select(f, view))
    ensures forall row :: row in Select(f, view) ==> row in view
  {
    if view != [] {
      var rest := Select(f, view[1..]);
      SelectKeepsOrder(f, view[1..]);
      forall j | 0 <= j < |rest| ensures rest[j].timestamp <= view[0].timestamp {
        assert rest[j] in view[1..];
      }
    }
  }

  /** The endpoint selects every row of the log that is wanted, as often as it is
      there, and no other, newest first. */
  lemma SelectsWhatIsWanted(f: Filter, log: seq<AuditRow>)
    ensures forall row :: multiset(Selected(f, log))[row]
                       == if IsWanted(row, f.actorCn, f.action, f.result) then multiset(log)[row] else 0
    ensures IsNewestFirst(Selected(f, log))
  {
    ListedNewestFirst(log);
    SelectKeepsOrder(f, NewestFirst(log));
    forall row { SelectCounts(f, NewestFirst(log), row); }
  }

  /** A page is the stretch of that list from the offset on, of at most `limit`
      rows, every one of them wanted. */
  lemma PageIsWanted(f: Filter, log: seq<AuditRow>, offset: nat, limit: nat)
    ensures var page, rows := ListEvents(log, f, offset, limit), Selected(f, log);
      && |page| == (if |rows| <= offset then 0 else if |rows| - offset <= limit then |rows| - offset else limit)
      && forall i :: 0 <= i < |page| ==>
           page[i] == rows[offset + i] && page[i] in log && IsWanted(page[i], f.actorCn, f.action, f.result)
  {
    var page, rows := ListEvents(log, f, offset, limit), Selected(f, log);
    SelectsWhatIsWanted(f, log);
    hide Selected, IsWanted;
    forall i | 0 <= i < |page|
      ensures page[i] in log && IsWanted(page[i], f.actorCn, f.action, f.result)
    {
      assert page[i] == rows[offset + i] && multiset(rows)[page[i]] > 0;
    }
  }

  // ---------- a fixed log ----------

  function Pages(rows: seq<AuditRow>, limit: nat, n: nat): seq<AuditRow> {
    if n == 0 then [] else Pages(rows, limit, n - 1) + Page(rows, (n - 1) * limit, limit)
  }

  lemma {:induction false} PagesAreAPrefix(rows: seq<AuditRow>, limit: nat, n: nat)
    ensures Pages(rows, limit, n) == Page(rows, 0, n * limit)
  {
    if n > 0 {
      PagesAreAPrefix(rows, limit, n - 1);
      assert n * limit == (n - 1) * limit + limit;
    }
  }

  /** On a fixed log the pages put together are the whole filtered list. */
  lemma PagesConcatenate(log: seq<AuditRow>, f: Filter, limit: nat, n: nat)
    requires |Selected(f, log)| <= n * limit
    ensures Pages(Selected(f, log), limit, n) == Selected(f, log)
  {
    PagesAreAPrefix(Selected(f, log), limit, n);
  }

  // ---------- a growing log ----------

  lemma {:induction false} InsertPosition(row: AuditRow, view: seq<AuditRow>) returns (p: nat)
    ensures p <= |view| && Insert(row, view) == view[..p] + [row] + view[p..]
    ensures forall i :: 0 <= i < p ==> row.timestamp < view[i].timestamp
    ensures p < |view| ==> view[p].timestamp <= row.timestamp
  {
    if view == [] || view[0].timestamp <= row.timestamp {
      p := 0;
    } else {
      var q := InsertPosition(row, view[1..]);
      p := q + 1;
      assert view[..p] == [view[0]] + view[1..][..q] && view[p..] == view[1..][q..];
    }
  }

  /** One more row in the log leaves the selected rows as they are, or splits them
      around itself. */
  lemma OneMoreRow(f: Filter, log: seq<AuditRow>, row: AuditRow) returns (front: seq<AuditRow>, back: seq<AuditRow>)
    ensures Selected(f, log) == front + back
    ensures Selected(f, log + [row]) == front + Select(f, [row]) + back
  {
    var view := NewestFirst(log);
    assert (log + [row])[..|log|] == log;
    var p := InsertPosition(row, view);
    assert view == view[..p] + view[p..];
    SelectOfConcat(f, view[..p], view[p..]);
    SelectOfConcat(f, view[..p] + [row], view[p..]);
    SelectOfConcat(f, view[..p], [row]);
    front, back := Select(f, view[..p]), Select(f, view[p..]);
  }

  lemma {:induction false} RowMovesBack(f: Filter, log: seq<AuditRow>, more: seq<AuditRow>, i: nat) returns (j: nat)
    requires i < |Selected(f, log)|
    ensures i <= j < |Selected(f, log + more)|
    ensures Selected(f, log + more)[j] == Selected(f, log)[i]
    decreases |more|
  {
    if more == [] {
      assert log + more == log;
      j := i;
    } else {
      var front := more[..|more| - 1];
      var k := RowMovesBack(f, log, front, i);
      assert log + more == (log + front) + [more[|more| - 1]];
      var a, b := OneMoreRow(f, log + front, more[|more| - 1]);
      j := if k < |a| then k else k + |Select(f, [more[|more| - 1]])|;
    }
  }

  /** The rows from position `x` on. */
  function Drop(rows: seq<AuditRow>, x: nat): seq<AuditRow> {
    if x <= |rows| then rows[x..] else []
  }

  lemma DropMore(rows: seq<AuditRow>, x: nat)
    ensures multiset(Drop(rows, x + 1)) <= multiset(Drop(rows, x))
  {
    if x < |rows| {
      assert rows[x..] == [rows[x]] + rows[x + 1..];
    }
  }

  lemma DropOfConcat(a: seq<AuditRow>, b: seq<AuditRow>, x: nat)
    ensures Drop(a + b, x) == if x <= |a| then a[x..] + b else Drop(b, x - |a|)
  {
  }

  lemma DropNone(rows: seq<AuditRow>)
    ensures Drop(rows, 0) == rows
  {
  }

  lemma MiddleAdds(a: seq<AuditRow>, middle: seq<AuditRow>, b: seq<AuditRow>)
    ensures multiset(a + b) <= multiset(a + middle + b)
  {
  }

  lemma DropAround(front: seq<AuditRow>, middle: seq<AuditRow>, back: seq<AuditRow>, x: nat)
    requires |middle| <= 1
    ensures multiset(Drop(front + back, x)) <= multiset(Drop(front + middle + back, x))
  {
    hide Drop;
    DropOfConcat(front, back, x);
    DropOfConcat(front + middle, back, x);
    if middle == [] {
      assert front + middle == front;
    } else if x <= |front| {
      MiddleAdds(front[x..], middle, back);
      assert (front + middle)[x..] == front[x..] + middle;
    } else {
      DropMore(back, x - |front| - 1);
      if x == |front| + 1 {
        DropNone(back);
        assert (front + middle)[x..] + back == back;
      }
    }
  }

  /** Whatever rows come in, the rows behind an offset stay behind it, each as
      often as before. */
  lemma {:induction false} NothingMovesForward(f: Filter, log: seq<AuditRow>, more: seq<AuditRow>, x: nat)
    ensures multiset(Drop(Selected(f, log), x)) <= multiset(Drop(Selected(f, log + more), x))
    decreases |more|
  {
    if more == [] {
      assert log + more == log;
    } else {
      var init, row := more[..|more| - 1], more[|more| - 1];
      NothingMovesForward(f, log, init, x);
      assert log + more == (log + init) + [row];
      var front, back := OneMoreRow(f, log + init, row);
      DropAround(front, Select(f, [row]), back, x);
    }
  }

  /** Each read sees the log of the read before, and possibly more. */
  ghost predicate Grows(logs: seq<seq<AuditRow>>) {
    forall r :: 0 < r < |logs| ==> logs[r - 1] <= logs[r]
  }

  /** What is read from read number `r` on, at offsets `r * limit` and so on. */
  function ReadFrom(logs: seq<seq<AuditRow>>, f: Filter, limit: nat, r: nat): seq<AuditRow>
    decreases |logs| - r
  {
    if |logs| <= r then [] else ListEvents(logs[r], f, r * limit, limit) + ReadFrom(logs, f, limit, r + 1)
  }

  lemma PageAndRest(rows: seq<AuditRow>, x: nat, limit: nat)
    ensures Drop(rows, x) == Page(rows, x, limit) + Drop(rows, x + limit)
  {
  }

  lemma {:induction false} CaughtFrom(logs: seq<seq<AuditRow>>, f: Filter, limit: nat, r: nat)
    requires Grows(logs) && r < |logs|
    requires |Selected(f, logs[|logs| - 1])| <= |logs| * limit
    ensures multiset(Drop(Selected(f, logs[r]), r * limit)) <= multiset(ReadFrom(logs, f, limit, r))
    decreases |logs| - r
  {
    var rows := Selected(f, logs[r]);
    assert (r + 1) * limit == r * limit + limit;
    PageAndRest(rows, r * limit, limit);
    hide Selected, Page, Drop;
    if r == |logs| - 1 {
      assert Drop(rows, r * limit + limit) == [] by { NothingLeft(rows, r * limit + limit); }
    } else {
      assert logs[r + 1] == logs[r] + logs[r + 1][|logs[r]|..];
      NothingMovesForward(f, logs[r], logs[r + 1][|logs[r]|..], (r + 1) * limit);
      CaughtFrom(logs, f, limit, r + 1);
    }
  }

  lemma NothingLeft(rows: seq<AuditRow>, x: nat)
    requires |rows| <= x
    ensures Drop(rows, x) == []
  {
  }

  /** Reading offsets 0, L, 2L, ... while the log grows gives every row that
      matched at the first read, at least as often as it was there, whatever the
      timestamps of the rows that come in meanwhile, if one keeps reading until a
      page ends the list. */
  lemma GrowthSkipsNothing(logs: seq<seq<AuditRow>>, f: Filter, limit: nat)
    requires Grows(logs) && logs != []
    requires |Selected(f, logs[|logs| - 1])| <= |logs| * limit
    ensures multiset(Selected(f, logs[0])) <= multiset(ReadFrom(logs, f, limit, 0))
  {
    CaughtFrom(logs, f, limit, 0);
    DropNone(Selected(f, logs[0]));
  }
}
