/** Node capacity over whole histories of passes, reports and new rows, one after another. */
module Capacity {
  import opened Wrappers
  import opened Lifecycle
  import opened Scheduler
  import opened Placements

  type NodeId = Scheduler.NodeId

  /**
   * A serial step. `Pass` adds the rows of one uninterrupted pass, `Observe` reports the actual state of a row,
   * `Report` replaces what a node reports, `Repin` rewrites the node affinity of stored requirements.
   */
  datatype Step =
    | Pass(ask: Ask, added: seq<WorkloadRow>, reservations: seq<Reservation>)
    | Observe(i: nat, actual: Actual)
    | Report(k: nat, record: NodeRecord)
    | Join(joining: NodeRecord)
    | Deploy(deployment: DeploymentId, stored: Option<Requirements>)
    | Repin(deployment: DeploymentId, affinity: Option<NodeId>)

  ghost predicate StepAllowed(t: Tables, step: Step) {
    match step
    case Pass(ask, added, _) => Stored(t, ask) && ChosenInTurn(Candidates(t, t.nodes), ask, added)
    // No stopped workload is revived.
    case Observe(i, actual) => i < |t.rows| && (t.rows[i].actual == Actual.Stopped ==> actual == Actual.Stopped)
    // What a node can allocate stays fixed.
    case Report(k, record) =>
      && k < |t.nodes| && record.id == t.nodes[k].id && record.resources.Some?
          && AtMost(NOTHING, ReservedOf(record.resources.value))
      && t.nodes[k].resources.Some? && Allocatable(record.resources.value) == Allocatable(t.nodes[k].resources.value)
    case Join(node) =>
      && (forall n :: n in t.nodes ==> n.id != node.id) && (forall row :: row in t.rows ==> row.node != Some(node.id))
      && (node.resources.Some? ==>
          AtMost(NOTHING, ReservedOf(node.resources.value)) && AtMost(NOTHING, Allocatable(node.resources.value)))
    case Deploy(d, req) =>
      d !in t.requirements && (forall row :: row in t.rows ==> row.deployment != d)
          && (req.Some? ==> Positive(req.value))
    case Repin(d, _) => d in t.requirements && t.requirements[d].Some?
  }

  ghost function StepAfter(t: Tables, step: Step): Tables
    requires StepAllowed(t, step)
  {
    match step
    case Pass(_, added, reservations) => t.(rows := t.rows + added, reservations := reservations)
    case Observe(i, actual) => t.(rows := t.rows[i := t.rows[i].(actual := actual)])
    case Report(k, record) => t.(nodes := t.nodes[k := record])
    case Join(node) => t.(nodes := t.nodes + [node])
    case Deploy(d, req) => t.(requirements := t.requirements[d := req])
    case Repin(d, node) => t.(requirements := t.requirements[d := Some(t.requirements[d].value.(requiredNode := node))])
  }

  /** Dropping rows from a node's count, one by one, can only lower its total. */
  lemma {:induction false} FewerCountsLowerTotal(rows: seq<WorkloadRow>, fewer: seq<WorkloadRow>,
                                                 reqs: RequirementTable, node: NodeId)
    requires |fewer| == |rows|
    requires forall d :: d in reqs && reqs[d].Some? ==> Positive(reqs[d].value)
    requires forall i :: 0 <= i < |rows| && Counts(fewer[i], reqs, node) ==>
              Counts(rows[i], reqs, node) && rows[i].deployment == fewer[i].deployment
    ensures AtMost(Total(fewer, reqs, node), Total(rows, reqs, node))
  {
    if rows != [] {
      var k := |rows| - 1;
      FewerCountsLowerTotal(rows[..k], fewer[..k], reqs, node);
      assert rows == rows[..k] + [rows[k]] && fewer == fewer[..k] + [fewer[k]];
      TotalSnoc(rows[..k], rows[k], reqs, node);
      TotalSnoc(fewer[..k], fewer[k], reqs, node);
    }
  }

  lemma {:induction false} NoneCountedTotal(rows: seq<WorkloadRow>, reqs: RequirementTable, node: NodeId)
    requires forall row :: row in rows ==> row.node != Some(node)
    ensures Total(rows, reqs, node) == NOTHING
  {
    if rows != [] {
      var init, last := rows[..|rows| - 1], rows[|rows| - 1];
      NoneCountedTotal(init, reqs, node);
    }
  }

  /** One row that starts to count adds its requirements. */
  lemma {:induction false} OneMoreCounts(rows: seq<WorkloadRow>, i: nat, row: WorkloadRow, reqs: RequirementTable,
                                         node: NodeId)
    requires i < |rows| && !Counts(rows[i], reqs, node) && Counts(row, reqs, node)
    ensures Total(rows[i := row], reqs, node) == Plus(Total(rows, reqs, node), Wanted(reqs[row.deployment].value))
  {
    var k, rows' := |rows| - 1, rows[i := row];
    assert rows == rows[..k] + [rows[k]] && rows' == rows'[..k] + [rows'[k]];
    TotalSnoc(rows[..k], rows[k], reqs, node);
    TotalSnoc(rows'[..k], rows'[k], reqs, node);
    if i < k {
      OneMoreCounts(rows[..k], i, row, reqs, node);
      assert rows'[..k] == rows[..k][i := row];
    } else {
      assert rows'[..k] == rows[..k];
    }
  }

  ghost predicate Sound(t: Tables) { ValidTables(t) && WithinCapacity(t) }

  /** Every serial step keeps every node within its capacity. */
  lemma StepKeepsCapacity(t: Tables, step: Step)
    requires Sound(t) && StepAllowed(t, step)
    ensures Sound(StepAfter(t, step))
  {
    hide Total, Scheduled, Counts;
    var t' := StepAfter(t, step);
    match step
    case Pass(ask, added, reservations) =>
      CapacityKept(t, ask, added, t.requirements, reservations);
    case Observe(i, actual) =>
      forall n | n in t.nodes && n.resources.Some? ensures AtMost(Total(t'.rows, t.requirements, n.id),
          Total(t.rows, t.requirements, n.id)) {
        ObservedCounts(t, i, actual, n.id);
      }
    case Report(k, record) =>
      assert t.nodes[k] in t.nodes;
      assert forall n :: n in t'.nodes ==> n == record || n in t.nodes;
    case Join(node) =>
      NoneCountedTotal(t.rows, t.requirements, node.id);
    case Deploy(d, req) => DeployKeepsTotals(t, step);
    case Repin(d, node) => DeployKeepsTotals(t, step);
  }

  lemma DeployKeepsTotals(t: Tables, step: Step)
    requires StepAllowed(t, step) && (step.Deploy? || step.Repin?)
    ensures forall n :: n in t.nodes ==>
              Total(t.rows, StepAfter(t, step).requirements, n.id) == Total(t.rows, t.requirements, n.id)
  {
    forall n | n in t.nodes ensures Total(t.rows, StepAfter(t, step).requirements, n.id)
        == Total(t.rows, t.requirements, n.id) {
      SameAmountsSameTotal(t.rows, t.requirements, StepAfter(t, step).requirements, n.id);
    }
  }

  lemma ObservedCounts(t: Tables, i: nat, actual: Actual, node: NodeId)
    requires ValidTables(t) && StepAllowed(t, Observe(i, actual))
    ensures AtMost(Total(t.rows[i := t.rows[i].(actual := actual)], t.requirements, node),
              Total(t.rows, t.requirements, node))
  {
    FewerCountsLowerTotal(t.rows, t.rows[i := t.rows[i].(actual := actual)], t.requirements, node);
  }

  ghost predicate History(tables: seq<Tables>, steps: seq<Step>) {
    && |tables| == |steps| + 1 && tables[0].rows == [] && ValidTables(tables[0])
    && (forall n :: n in tables[0].nodes && n.resources.Some? ==> AtMost(NOTHING, Allocatable(n.resources.value)))
    && forall i :: 0 <= i < |steps| ==>
        StepAllowed(tables[i], steps[i]) && tables[i + 1] == StepAfter(tables[i], steps[i])
  }

  /**
   * Over any serial history: on every node, the summed requirements of the workloads that are not stopped never
   * exceed what the node can allocate, in CPU, memory and storage.
   */
  lemma {:induction false} CapacityForever(tables: seq<Tables>, steps: seq<Step>, i: nat)
    requires History(tables, steps) && i < |tables|
    ensures ValidTables(tables[i]) && WithinCapacity(tables[i])
    ensures var t := tables[i];
            forall n :: n in t.nodes && n.resources.Some? ==>
              && SumOn(t.rows, t.requirements, n.id, CPU) <= n.resources.value.cpuMilli.allocatable
              && SumOn(t.rows, t.requirements, n.id, MEMORY) <= n.resources.value.memoryMib.allocatable
              && SumOn(t.rows, t.requirements, n.id, STORAGE) <= n.resources.value.storageMib.allocatable
  {
    hide StepAllowed, StepAfter, SumOn;
    var t := tables[i];
    forall n ensures Total(t.rows, t.requirements, n)
        == Amount(SumOn(t.rows, t.requirements, n, CPU), SumOn(t.rows, t.requirements, n, MEMORY),
                  SumOn(t.rows, t.requirements, n, STORAGE))
    {
      ScheduledIsSum(t.rows, t.requirements, n);
    }
    if i == 0 {
      assert forall n :: n in tables[0].nodes ==> Total([], tables[0].requirements, n.id) == NOTHING;
    } else {
      CapacityForever(tables, steps, i - 1);
      StepKeepsCapacity(tables[i - 1], steps[i - 1]);
    }
  }

  /**
   * A report that revives a stopped workload is not admitted by anyone: capacity survives it exactly when the node
   * still has room for that workload.
   */
  lemma RevivalKeepsCapacityIff(t: Tables, i: nat, actual: Actual)
    requires Sound(t) && i < |t.rows| && t.rows[i].actual == Actual.Stopped && actual != Actual.Stopped
    requires t.rows[i].deployment in t.requirements && t.requirements[t.rows[i].deployment].Some?
    ensures WithinCapacity(t.(rows := t.rows[i := t.rows[i].(actual := actual)]))
       <==> forall n :: n in t.nodes && n.resources.Some? && t.rows[i].node == Some(n.id) ==>
              AtMost(Plus(Total(t.rows, t.requirements, n.id), Wanted(t.requirements[t.rows[i].deployment].value)),
                  Allocatable(n.resources.value))
  {
    hide Total, Scheduled;
    var row := t.rows[i].(actual := actual);
    var rows := t.rows[i := row];
    forall n | n in t.nodes
      ensures Total(rows, t.requirements, n.id)
           == if t.rows[i].node == Some(n.id)
               then Plus(Total(t.rows, t.requirements, n.id), Wanted(t.requirements[row.deployment].value))
              else Total(t.rows, t.requirements, n.id) {
      if t.rows[i].node == Some(n.id) {
        OneMoreCounts(t.rows, i, row, t.requirements, n.id);
      } else {
        OtherRowsCount(t.rows, i, row, t.requirements, n.id);
      }
    }
    hide AtMost, Plus, Allocatable;
  }

  lemma {:induction false} OtherRowsCount(rows: seq<WorkloadRow>, i: nat, row: WorkloadRow, reqs: RequirementTable,
                                          node: NodeId)
    requires i < |rows| && !Counts(rows[i], reqs, node) && !Counts(row, reqs, node)
    ensures Total(rows[i := row], reqs, node) == Total(rows, reqs, node)
  {
    var k, rows' := |rows| - 1, rows[i := row];
    assert rows == rows[..k] + [rows[k]] && rows' == rows'[..k] + [rows'[k]];
    TotalSnoc(rows[..k], rows[k], reqs, node);
    TotalSnoc(rows'[..k], rows'[k], reqs, node);
    if i < k {
      OtherRowsCount(rows[..k], i, row, reqs, node);
      assert rows'[..k] == rows[..k][i := row];
    } else {
      assert rows'[..k] == rows[..k];
    }
  }
}
