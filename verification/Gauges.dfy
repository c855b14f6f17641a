/** The gauges recomputed from the node table
    (controller/app/core/metrics_hooks.py). */
module Gauges {
  import opened Wrappers
  import opened Tables
  import Interleaving
  import Invariants
  import Safety

  type StateRole = (NodeState, string)

  function KeyOf(row: NodeRow): StateRole {
    (row.base.state, row.base.role)
  }

  function CountOf(nodes: seq<NodeRow>, key: StateRole): nat {
    if nodes == [] then 0
    else CountOf(nodes[..|nodes| - 1], key) + if KeyOf(nodes[|nodes| - 1]) == key then 1 else 0
  }

  /** The rows with this state and this role. */
  function RowsWith(nodes: seq<NodeRow>, state: NodeState, role: string): set<nat> {
    set i: nat | i < |nodes| && nodes[i].base.state == state && nodes[i].base.role == role
  }

  lemma RowsWithOneMore(nodes: seq<NodeRow>, row: NodeRow, state: NodeState, role: string)
    ensures |RowsWith(nodes + [row], state, role)|
         == |RowsWith(nodes, state, role)| + if row.base.state == state && row.base.role == role then 1 else 0
  {
    var more, before := RowsWith(nodes + [row], state, role), RowsWith(nodes, state, role);
    if row.base.state == state && row.base.role == role {
      assert more == before + {|nodes|};
    } else {
      assert more == before;
    }
  }

  /** A gauge counts the rows whose own state and role are its labels. */
  lemma {:induction false} CountIsRows(nodes: seq<NodeRow>, state: NodeState, role: string)
    ensures CountOf(nodes, (state, role)) == |RowsWith(nodes, state, role)|
  {
    if nodes == [] {
      assert RowsWith(nodes, state, role) == {};
    } else {
      var m := |nodes| - 1;
      CountIsRows(nodes[..m], state, role);
      RowsWithOneMore(nodes[..m], nodes[m], state, role);
      assert nodes == nodes[..m] + [nodes[m]];
      hide RowsWith;
    }
  }

  /** Each present pair has its count, and no other pair has a label. */
  ghost predicate Recounted(total: map<StateRole, nat>, nodes: seq<NodeRow>) {
    forall key :: if key in total then total[key] == CountOf(nodes, key) > 0 else CountOf(nodes, key) == 0
  }

  /** The age label of a node that has beaten. */
  ghost predicate Aged(before: map<string, int>, after: map<string, int>, nodes: seq<NodeRow>, now: int) {
    && (forall id :: id in after <==>
          id in before || exists i :: 0 <= i < |nodes| && nodes[i].base.nodeId == id && nodes[i].lastHeartbeatAt.Some?)
    && (forall i :: 0 <= i < |nodes| && nodes[i].lastHeartbeatAt.Some? ==>
          nodes[i].base.nodeId in after && after[nodes[i].base.nodeId] == now - nodes[i].lastHeartbeatAt.value)
  }

  class Metrics {
    var total: map<StateRole, nat>
    var age: map<string, int>

    constructor ()
      ensures total == map[] && age == map[]
    {
      total, age := map[], map[];
    }

    /** Clears and recounts `nodes_total`; sets, and never clears, the ages. */
    method RefreshNodeGauges(nodes: seq<NodeRow>, now: int)
      requires Distinct(nodes)
      modifies this
      ensures Recounted(total, nodes)
      ensures Aged(old(age), age, nodes, now)
    {
      total := map[];
      var counts: map<StateRole, nat> := map[];
      for i := 0 to |nodes|
        invariant Recounted(counts, nodes[..i])
        invariant total == map[] && age == old(age)
      {
        assert nodes[..i + 1][..i] == nodes[..i];
        var key := KeyOf(nodes[i]);
        counts := counts[key := if key in counts then counts[key] + 1 else 1];
      }
      assert nodes[..|nodes|] == nodes;
      var keys := counts.Keys;
      while keys != {}
        invariant keys <= counts.Keys
        invariant total.Keys == counts.Keys - keys
        invariant forall key :: key in total ==> total[key] == counts[key]
        invariant age == old(age)
        decreases keys
      {
        var key :| key in keys;
        total := total[key := counts[key]];
        keys := keys - {key};
      }
      assert total == counts;
      for i := 0 to |nodes|
        invariant Aged(old(age), age, nodes[..i], now)
        invariant total == counts
      {
        ghost var before := age;
        if nodes[i].lastHeartbeatAt.Some? {
          age := age[nodes[i].base.nodeId := now - nodes[i].lastHeartbeatAt.value];
        }
        AgedStep(old(age), before, age, nodes, i, now);
      }
    }
  }

  lemma AgedStep(
      start: map<string, int>, before: map<string, int>, after: map<string, int>, nodes: seq<NodeRow>, i: nat, now: int)
    requires Distinct(nodes) && i < |nodes| && Aged(start, before, nodes[..i], now)
    requires after == if nodes[i].lastHeartbeatAt.Some?
                      then before[nodes[i].base.nodeId := now - nodes[i].lastHeartbeatAt.value] else before
    ensures Aged(start, after, nodes[..i + 1], now)
  {
    var upto := nodes[..i + 1];
    hide Distinct;
    forall id
      ensures id in after <==>
        id in start || exists k :: 0 <= k < |upto| && upto[k].base.nodeId == id && upto[k].lastHeartbeatAt.Some?
    {
      if k :| 0 <= k < i && nodes[..i][k].base.nodeId == id && nodes[..i][k].lastHeartbeatAt.Some? {
        assert upto[k] == nodes[..i][k];
      }
      if k :| 0 <= k < |upto| && upto[k].base.nodeId == id && upto[k].lastHeartbeatAt.Some? {
        assert k < i ==> nodes[..i][k] == upto[k];
      }
      assert upto[i] == nodes[i];
    }
    forall k | 0 <= k < |upto| && upto[k].lastHeartbeatAt.Some?
      ensures upto[k].base.nodeId in after && after[upto[k].base.nodeId] == now - upto[k].lastHeartbeatAt.value
    {
      assert k < i ==> nodes[..i][k] == upto[k];
    }
  }

  // ---------- conservation ----------

  ghost function Sum(total: map<StateRole, nat>): nat
    decreases |total.Keys|
  {
    if total == map[] then 0
    else
      var key :| key in total;
      total[key] + Sum(total - {key})
  }

  lemma {:induction false} SumWithout(total: map<StateRole, nat>, key: StateRole)
    requires key in total
    ensures Sum(total) == total[key] + Sum(total - {key})
    decreases |total.Keys|
  {
    var k :| k in total && Sum(total) == total[k] + Sum(total - {k});
    if k != key {
      SumWithout(total - {k}, key);
      SumWithout(total - {key}, k);
      assert total - {k} - {key} == total - {key} - {k};
    }
  }

  /** The gauge values of a recount add up to the number of nodes. */
  lemma {:induction false} GaugesSumToRows(total: map<StateRole, nat>, nodes: seq<NodeRow>)
    requires Recounted(total, nodes)
    ensures Sum(total) == |nodes|
  {
    if nodes == [] {
      assert forall key :: key !in total by {
        forall key ensures key !in total { assert CountOf(nodes, key) == 0; }
      }
      assert total == map[];
    } else {
      var front, key := nodes[..|nodes| - 1], KeyOf(nodes[|nodes| - 1]);
      assert CountOf(nodes, key) == CountOf(front, key) + 1;
      assert key in total;
      var rest := total - {key};
      var less := if total[key] == 1 then rest else rest[key := total[key] - 1];
      forall k ensures if k in less then less[k] == CountOf(front, k) > 0 else CountOf(front, k) == 0 {
        assert if k in total then total[k] == CountOf(nodes, k) > 0 else CountOf(nodes, k) == 0;
      }
      GaugesSumToRows(less, front);
      SumWithout(total, key);
      if total[key] > 1 {
        SumWithout(less, key);
        assert less - {key} == rest;
      }
    }
  }

  // ---------- the age labels over a run ----------

  predicate LabelsAreNodes(age: map<string, int>, nodes: seq<NodeRow>) {
    forall id :: id in age ==> Find(nodes, id).Some?
  }

  /** The never-cleared age labels name existing nodes for ever: a refresh at any
      moment, and any run of the controller before the next one, keeps that. */
  lemma AgeLabelsStayNodes(
      age: map<string, int>, after: map<string, int>, s: Interleaving.System, es: seq<Interleaving.Event>, now: int)
    requires Invariants.Inv(s) && LabelsAreNodes(age, s.nodes)
    requires Aged(age, after, s.nodes, now)
    ensures LabelsAreNodes(after, Interleaving.Run(s, es).nodes)
  {
    var t := Interleaving.Run(s, es);
    forall id | id in after ensures Find(t.nodes, id).Some? {
      assert Find(s.nodes, id).Some?;
      KeepsFinding(s, es, id);
    }
  }

  lemma KeepsFinding(s: Interleaving.System, es: seq<Interleaving.Event>, id: string)
    requires Invariants.Inv(s) && Find(s.nodes, id).Some?
    ensures Find(Interleaving.Run(s, es).nodes, id).Some?
  {
    Safety.RowsOnlyActivate(s, es);
    hide Interleaving.Run, Invariants.Inv;
    Invariants.FoundStaysFound(s.nodes, Interleaving.Run(s, es).nodes, id);
  }
}
