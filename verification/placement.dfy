/**
 * The placement loop of one uninterrupted reconcile pass: loading the candidates, scheduling, assigning host ports,
 * inserting the workloads, and the bookkeeping that keeps the nodes within their capacity.
 */
module Placements {
  import opened Wrappers
  import opened Lifecycle
  import opened Ports
  import opened Scheduler

  type NodeId = Scheduler.NodeId

  datatype DeploymentId = DeploymentId(id: int)

  /** What a workload asks for, or what a node has. */
  datatype Amount = Amount(cpuMilli: int, memoryMib: int, storageMib: int)

  const NOTHING := Amount(0, 0, 0)

  function Plus(a: Amount, b: Amount)
    : Amount { Amount(a.cpuMilli + b.cpuMilli, a.memoryMib + b.memoryMib, a.storageMib + b.storageMib) }

  predicate AtMost(a: Amount, b: Amount) { a.cpuMilli <= b.cpuMilli && a.memoryMib <= b.memoryMib
                   && a.storageMib <= b.storageMib }

  function Wanted(req: Requirements): Amount { Amount(req.cpuMilli, req.memoryMib, req.storageMib) }

  function Allocatable(r: Resources)
    : Amount { Amount(r.cpuMilli.allocatable, r.memoryMib.allocatable, r.storageMib.allocatable) }

  function ReservedOf(r: Resources): Amount { Amount(r.cpuMilli.reserved, r.memoryMib.reserved, r.storageMib.reserved) }

  function Max(a: int, b: int): int { if a < b then b else a }

  datatype NodeRecord = NodeRecord(
    id: NodeId, status: NodeStatus, schedulingEnabled: bool, architecture: string, region: Option<string>,
    labels: map<string, string>, runtimes: set<Runtime>, resources: Option<Resources>)

  datatype WorkloadRow = WorkloadRow(deployment: DeploymentId, node: Option<NodeId>, actual: Actual)

  /** An active host port reservation. */
  datatype Reservation = Reservation(node: NodeId, hostPort: HostPort)

  type RequirementTable = map<DeploymentId, Option<Requirements>>

  /** The tables a placement reads and writes. Stored requirements that do not parse are `None`. */
  datatype Tables = Tables(
    nodes: seq<NodeRecord>, rows: seq<WorkloadRow>, requirements: RequirementTable,
        reservations: seq<Reservation>)

  /** Requirements that parse ask for positive CPU and memory and no negative storage. */
  ghost predicate Positive(req: Requirements) { AtMost(NOTHING, Wanted(req)) }

  ghost predicate ValidTables(t: Tables) {
    && (forall i, j :: 0 <= i < j < |t.nodes| ==> t.nodes[i].id != t.nodes[j].id)
    && (forall n :: n in t.nodes && n.resources.Some? ==> AtMost(NOTHING, ReservedOf(n.resources.value)))
    && (forall d :: d in t.requirements && t.requirements[d].Some? ==> Positive(t.requirements[d].value))
  }

  // ---------------------------------------------------------------------------------------------------------------
  // What the rows of a node add up to.

  predicate Counts(row: WorkloadRow, reqs: RequirementTable, node: NodeId) {
    row.node == Some(node) && row.actual != Actual.Stopped && row.deployment in reqs && reqs[row.deployment].Some?
  }

  /** The summed requirements of a node's workloads that are not stopped; none when there is no such workload. */
  function Scheduled(rows: seq<WorkloadRow>, reqs: RequirementTable, node: NodeId): Option<Amount>
    decreases |rows|, 0
  {
    if rows == [] then None
    else
      var init, last := rows[..|rows| - 1], rows[|rows| - 1];
      if Counts(last, reqs, node) then Some(Plus(Total(init, reqs, node), Wanted(reqs[last.deployment].value)))
      else Scheduled(init, reqs, node)
  }

  function Total(rows: seq<WorkloadRow>, reqs: RequirementTable, node: NodeId): Amount
    decreases |rows|, 1
  {
    match Scheduled(rows, reqs, node) case Some(sum) => sum case None => NOTHING
  }

  /** Every node's workloads fit into what it can allocate. */
  ghost predicate WithinCapacity(t: Tables) {
    forall n :: n in t.nodes && n.resources.Some? ==>
        AtMost(Total(t.rows, t.requirements, n.id), Allocatable(n.resources.value))
  }

  function Raise(q: Quantity, scheduled: int): Quantity { q.(reserved := Max(q.reserved, scheduled)) }

  function WithScheduledReservations(r: Resources, scheduled: Option<Amount>): Resources {
    match scheduled
    case None => r
    case Some(s) => Resources(Raise(r.cpuMilli, s.cpuMilli), Raise(r.memoryMib, s.memoryMib),
        Raise(r.storageMib, s.storageMib))
  }

  function ActivePorts(reservations: seq<Reservation>, node: NodeId): set<HostPort> {
    set r | r in reservations && r.node == node :: r.hostPort
  }

  function CandidateOf(t: Tables, n: NodeRecord): Node
    requires n.resources.Some?
  {
    Node(n.id, n.status, n.schedulingEnabled, n.architecture, n.region, n.labels, n.runtimes,
         WithScheduledReservations(n.resources.value, Scheduled(t.rows, t.requirements, n.id)),
             ActivePorts(t.reservations, n.id))
  }

  /** The snapshot of the nodes that report resources. */
  function Candidates(t: Tables, nodes: seq<NodeRecord>): seq<Node> {
    if nodes == [] then []
    else
      var init, last := nodes[..|nodes| - 1], nodes[|nodes| - 1];
      if last.resources.Some? then Candidates(t, init) + [CandidateOf(t, last)] else Candidates(t, init)
  }

  // ---------------------------------------------------------------------------------------------------------------
  // What a pass may add.

  /** The rows were admitted one after another, each where it fitted beside all before it. */
  ghost predicate Admitted(t: Tables, deployment: DeploymentId, added: seq<WorkloadRow>)
    requires deployment in t.requirements && t.requirements[deployment].Some?
  {
    if added == [] then true
    else
      var init, last := added[..|added| - 1], added[|added| - 1];
      && Admitted(t, deployment, init)
      && last.deployment == deployment && last.actual == Actual.Pending
      && exists n :: n in t.nodes && n.resources.Some? && last.node == Some(n.id)
           && AtMost(Plus(Total(t.rows + init, t.requirements, n.id), Wanted(t.requirements[deployment].value)),
               Allocatable(n.resources.value))
  }

  lemma TotalSnoc(rows: seq<WorkloadRow>, row: WorkloadRow, reqs: RequirementTable, node: NodeId)
    ensures Total(rows + [row], reqs, node)
         == if Counts(row, reqs, node) then Plus(Total(rows, reqs, node), Wanted(reqs[row.deployment].value))
             else Total(rows, reqs, node)
  {
    assert (rows + [row])[..|rows|] == rows;
  }

  /** Admitted rows keep every node within its capacity. */
  lemma {:induction false} AdmissionKeepsCapacity(t: Tables, deployment: DeploymentId, added: seq<WorkloadRow>)
    requires ValidTables(t) && WithinCapacity(t) && deployment in t.requirements && t.requirements[deployment].Some?
    requires Admitted(t, deployment, added)
    ensures WithinCapacity(t.(rows := t.rows + added))
  {
    if added == [] {
      assert t.rows + added == t.rows;
    } else {
      var init, last := added[..|added| - 1], added[|added| - 1];
      AdmissionKeepsCapacity(t, deployment, init);
      assert t.rows + added == (t.rows + init) + [last];
      forall n | n in t.nodes && n.resources.Some?
        ensures AtMost(Total(t.rows + added, t.requirements, n.id), Allocatable(n.resources.value)) {
        TotalSnoc(t.rows + init, last, t.requirements, n.id);
      }
    }
  }

  // ---------------------------------------------------------------------------------------------------------------
  // The reservations made in memory.

  /** The candidate carries at least what a fresh load would give its node: the report and the scheduled total. */
  ghost predicate Covers(c: Node, n: NodeRecord, total: Amount) {
    && c.id == n.id && n.resources.Some?
    && Allocatable(c.resources) == Allocatable(n.resources.value)
    && AtMost(total, ReservedOf(c.resources)) && AtMost(ReservedOf(n.resources.value), ReservedOf(c.resources))
  }

  /** Every candidate stands for a node and covers it; ids are distinct. */
  ghost predicate CandidatesCover(candidates: seq<Node>, t: Tables) {
    && (forall i, j :: 0 <= i < j < |candidates| ==> candidates[i].id != candidates[j].id)
    && (forall c :: c in candidates ==> CoversSome(c, t))
  }

  ghost predicate CoversSome(c: Node, t: Tables) {
    exists n :: n in t.nodes && Covers(c, n, Total(t.rows, t.requirements, c.id))
  }

  function Bump(c: Node, req: Requirements): Node {
    c.(resources := Resources(
      c.resources.cpuMilli.(reserved := c.resources.cpuMilli.reserved + req.cpuMilli),
      c.resources.memoryMib.(reserved := c.resources.memoryMib.reserved + req.memoryMib),
      c.resources.storageMib.(reserved := c.resources.storageMib.reserved + req.storageMib)))
  }

  /** In-memory reservation: the first candidate with the id carries the requirements as well. */
  function Reserving(candidates: seq<Node>, node: NodeId, req: Requirements): (r: seq<Node>)
    ensures |r| == |candidates|
  {
    if candidates == [] then []
    else if candidates[0].id == node then [Bump(candidates[0], req)] + candidates[1..]
    else [candidates[0]] + Reserving(candidates[1..], node, req)
  }

  lemma {:induction false} ReservingAt(candidates: seq<Node>, node: NodeId, req: Requirements, i: nat)
    requires i < |candidates|
    requires forall j, k :: 0 <= j < k < |candidates| ==> candidates[j].id != candidates[k].id
    ensures Reserving(candidates, node, req)[i] == if candidates[i].id == node then Bump(candidates[i], req)
              else candidates[i]
  {
    if candidates[0].id != node && i > 0 {
      ReservingAt(candidates[1..], node, req, i - 1);
    }
  }

  /** Reserving in memory keeps pace with the inserted row: the candidates still cover what a load would recompute. */
  lemma ReservingCovers(candidates: seq<Node>, t: Tables, row: WorkloadRow, node: NodeId, req: Requirements)
    requires CandidatesCover(candidates, t) && Positive(req)
    requires row.node == Some(node) && row.actual != Actual.Stopped
    requires row.deployment in t.requirements && t.requirements[row.deployment].Some?
              && Wanted(t.requirements[row.deployment].value) == Wanted(req)
    ensures CandidatesCover(Reserving(candidates, node, req), t.(rows := t.rows + [row]))
  {
    hide Total, Scheduled;
    var reserving, t' := Reserving(candidates, node, req), t.(rows := t.rows + [row]);
    forall i | 0 <= i < |reserving| ensures reserving[i].id == candidates[i].id && CoversSome(reserving[i], t') {
      ReservingAt(candidates, node, req, i);
      assert CoversSome(candidates[i], t);
      var n :| n in t.nodes && Covers(candidates[i], n, Total(t.rows, t.requirements, candidates[i].id));
      TotalSnoc(t.rows, row, t.requirements, n.id);
      assert Covers(reserving[i], n, Total(t'.rows, t'.requirements, n.id));
    }
  }

  lemma FreshCandidateCovers(t: Tables, n: NodeRecord)
    requires n in t.nodes && n.resources.Some? && AtMost(NOTHING, ReservedOf(n.resources.value))
    ensures CoversSome(CandidateOf(t, n), t)
  {
    assert Covers(CandidateOf(t, n), n, Total(t.rows, t.requirements, n.id));
  }

  lemma {:induction false} FreshCandidatesCover(t: Tables, nodes: seq<NodeRecord>)
    requires ValidTables(t) && nodes <= t.nodes
    ensures CandidatesCover(Candidates(t, nodes), t)
    ensures forall c :: c in Candidates(t, nodes) ==> exists n :: n in nodes && n.id == c.id
    ensures forall c :: c in Candidates(t, nodes) ==> c.reservedHostPorts == ActivePorts(t.reservations, c.id)
  {
    hide Covers, CoversSome, ActivePorts;
    if nodes != [] {
      var init, last := nodes[..|nodes| - 1], nodes[|nodes| - 1];
      FreshCandidatesCover(t, init);
      if last.resources.Some? {
        assert last in t.nodes;
        FreshCandidateCovers(t, last);
        assert forall n :: n in init ==> n.id != last.id;
      }
    }
  }

  /** A node whose candidate has room has room for the row itself. */
  lemma CoveredHasRoom(candidates: seq<Node>, t: Tables, req: Requirements, node: NodeId)
    requires CandidatesCover(candidates, t) && Decides((set c | c in candidates), req, Some(node))
    ensures exists c :: c in candidates && c.id == node && Eligible(c, req)
    ensures exists n :: n in t.nodes && n.id == node && n.resources.Some?
              && AtMost(Plus(Total(t.rows, t.requirements, n.id), Wanted(req)), Allocatable(n.resources.value))
  {
    hide Total;
    var c :| c in candidates && c.id == node && Eligible(c, req);
    assert CoversSome(c, t);
    var n :| n in t.nodes && Covers(c, n, Total(t.rows, t.requirements, c.id));
  }

  // ---------------------------------------------------------------------------------------------------------------
  // The choices of one pass.

  /** The candidates after the reservations for `added`. */
  function ReservingAll(candidates: seq<Node>, added: seq<WorkloadRow>, req: Requirements): (r: seq<Node>)
    ensures |r| == |candidates|
  {
    if added == [] then candidates
    else
      var rest := ReservingAll(candidates, added[..|added| - 1], req);
      var node := added[|added| - 1].node;
      if node.Some? then Reserving(rest, node.value, req) else rest
  }

  function NodeSet(candidates: seq<Node>): set<Node> { set c | c in candidates }

  /** What a pass asks for: `persistent` deployments pin the node of their first placement. */
  datatype Ask = Ask(deployment: DeploymentId, req: Requirements, persistent: bool)

  /** The requirements after the placements `added`. */
  function Pinned(ask: Ask, added: seq<WorkloadRow>): (r: Requirements)
    ensures Wanted(r) == Wanted(ask.req) && r.requestedHostPorts == ask.req.requestedHostPorts
  {
    if ask.persistent && added != [] && ask.req.requiredNode.None? then ask.req.(requiredNode := added[0].node)
        else ask.req
  }

  /** Each row is a new one of the deployment on the node the scheduler picks once the rows before it are reserved. */
  ghost predicate ChosenInTurn(candidates: seq<Node>, ask: Ask, added: seq<WorkloadRow>) {
    if added == [] then true
    else
      var init, last := added[..|added| - 1], added[|added| - 1];
      && ChosenInTurn(candidates, ask, init)
      && last.deployment == ask.deployment && last.actual == Actual.Pending && last.node.Some?
      && Decides(NodeSet(ReservingAll(candidates, init, ask.req)), Pinned(ask, init), last.node)
  }

  /** Choosing in turn admits every row: the in-memory reservations always cover what a fresh load would compute. */
  lemma {:induction false} ChosenIsAdmitted(t: Tables, ask: Ask, added: seq<WorkloadRow>)
    requires ValidTables(t) && Stored(t, ask)
    requires ChosenInTurn(Candidates(t, t.nodes), ask, added)
    ensures Admitted(t, ask.deployment, added)
    ensures CandidatesCover(ReservingAll(Candidates(t, t.nodes), added, ask.req), t.(rows := t.rows + added))
  {
    hide CandidatesCover, Decides, Total, Scheduled, Candidates, Pinned;
    if added == [] {
      assert t.rows + added == t.rows && t.(rows := t.rows) == t;
      FreshCandidatesCover(t, t.nodes);
    } else {
      var init, last := added[..|added| - 1], added[|added| - 1];
      ChosenIsAdmitted(t, ask, init);
      var t', candidates := t.(rows := t.rows + init), ReservingAll(Candidates(t, t.nodes), init, ask.req);
      CoveredHasRoom(candidates, t', Pinned(ask, init), last.node.value);
      ReservingCovers(candidates, t', last, last.node.value, ask.req);
      assert t.rows + added == t'.rows + [last];
    }
  }

  /** The deployment's stored requirements parse and ask for the same amounts. */
  ghost predicate Stored(t: Tables, ask: Ask) {
    ask.deployment in t.requirements && t.requirements[ask.deployment].Some?
        && Wanted(ask.req) == Wanted(t.requirements[ask.deployment].value)
  }

  /** A persistent deployment gets all its placements of one pass on one node. */
  lemma {:induction false} PersistentStaysTogether(candidates: seq<Node>, ask: Ask, added: seq<WorkloadRow>, i: nat)
    requires ChosenInTurn(candidates, ask, added) && ask.persistent && i < |added|
    ensures added[i].node.Some? && added[i].node == added[0].node
              && (ask.req.requiredNode.Some? ==> added[i].node == ask.req.requiredNode)
  {
    var init, last := added[..|added| - 1], added[|added| - 1];
    if i < |init| {
      PersistentStaysTogether(candidates, ask, init, i);
    } else {
      if i > 0 {
        PersistentStaysTogether(candidates, ask, init, 0);
        assert init[0] == added[0];
      }
      hide Decides;
      if Pinned(ask, init).requiredNode.Some? {
        PinnedDecision(NodeSet(ReservingAll(candidates, init, ask.req)), Pinned(ask, init),
            Pinned(ask, init).requiredNode.value, last.node);
      }
    }
  }

  lemma {:induction false} ReservingAllKeepsIds(candidates: seq<Node>, added: seq<WorkloadRow>, req: Requirements)
    requires forall i, j :: 0 <= i < j < |candidates| ==> candidates[i].id != candidates[j].id
    ensures forall i :: 0 <= i < |candidates| ==> ReservingAll(candidates, added, req)[i].id == candidates[i].id
  {
    if added != [] {
      var init, last := added[..|added| - 1], added[|added| - 1];
      ReservingAllKeepsIds(candidates, init, req);
      if last.node.Some? {
        forall i | 0 <= i < |candidates| ensures ReservingAll(candidates, added, req)[i].id == candidates[i].id {
          ReservingAt(ReservingAll(candidates, init, req), last.node.value, req, i);
        }
      }
    }
  }

  /** The reservations after the rows and the ports assigned to each. */
  function ReservationsAfter(reservations: seq<Reservation>, added: seq<WorkloadRow>, placed: seq<seq<Assigned>>)
    : seq<Reservation>
    requires |added| == |placed|
  {
    if added == [] then reservations
    else
      var last := added[|added| - 1];
      ReservationsAfter(reservations, added[..|added| - 1], placed[..|added| - 1])
      + (if last.node.Some? then ReservationsFor(last.node.value, placed[|added| - 1]) else [])
  }

  // ---------------------------------------------------------------------------------------------------------------
  // Port reservations.

  ghost predicate ReservationsUnique(reservations: seq<Reservation>) {
    forall i, j :: 0 <= i < j < |reservations| ==> reservations[i] != reservations[j]
  }

  function ReservationsFor(node: NodeId, placed: seq<Assigned>): (r: seq<Reservation>)
    ensures |r| == |placed|
    ensures forall i :: 0 <= i < |r| ==> r[i] == Reservation(node, placed[i].hostPort)
  {
    seq(|placed|, i requires 0 <= i < |placed| => Reservation(node, placed[i].hostPort))
  }

  lemma NewReservationsAreUnique(reservations: seq<Reservation>, node: NodeId, placed: seq<Assigned>)
    requires ReservationsUnique(reservations)
    requires Clean(ActivePorts(reservations, node), placed)
    ensures ReservationsUnique(reservations + ReservationsFor(node, placed))
  {
    var all := reservations + ReservationsFor(node, placed);
    forall i, j | 0 <= i < j < |all| ensures all[i] != all[j] {
      if i < |reservations| <= j {
        var k := j - |reservations|;
        assert placed[k].hostPort in Held(placed);
        if all[i].node == node {
          assert all[i].hostPort in ActivePorts(reservations, node);
        }
      }
    }
  }

  /** The fixed ports of an eligible candidate are free, so nothing stands in the way of the assignment. */
  lemma EligibleIsApart(c: Node, req: Requirements, ports: seq<PortSpec>, active: set<HostPort>)
    requires Eligible(c, req) && c.reservedHostPorts == active && req.requestedHostPorts == FixedHostPorts(ports)
    requires PortsApart(ports)
    ensures Safe(ports, active)
  {
    forall i | 0 <= i < |ports| && ports[i].isPublic && ports[i].fixed.Some?
      ensures HostPort(ports[i].fixed.value, ports[i].protocol) !in active
    {
      assert ports[i] in ports && HostPort(ports[i].fixed.value, ports[i].protocol) in FixedHostPorts(ports);
    }
  }

  // ---------------------------------------------------------------------------------------------------------------
  // The candidates and the choices, read off the records' own fields.

  const CPU := (req: Requirements) => req.cpuMilli
  const MEMORY := (req: Requirements) => req.memoryMib
  const STORAGE := (req: Requirements) => req.storageMib

  /** One amount, summed over the node's rows that are not stopped and whose deployment's requirements parse. */
  function SumOn(rows: seq<WorkloadRow>, reqs: RequirementTable, node: NodeId, amount: Requirements -> int): int {
    if rows == [] then 0
    else
      var last := rows[|rows| - 1];
      SumOn(rows[..|rows| - 1], reqs, node, amount)
      + if last.node == Some(node) && last.actual != Actual.Stopped && last.deployment in reqs
          && reqs[last.deployment].Some?
        then amount(reqs[last.deployment].value) else 0
  }

  /** Some row of the node is counted. */
  ghost predicate AnyOn(rows: seq<WorkloadRow>, reqs: RequirementTable, node: NodeId) {
    exists row :: row in rows && row.node == Some(node) && row.actual != Actual.Stopped
                  && row.deployment in reqs && reqs[row.deployment].Some?
  }

  lemma {:induction false} ScheduledIsSum(rows: seq<WorkloadRow>, reqs: RequirementTable, node: NodeId)
    ensures Scheduled(rows, reqs, node).Some? <==> AnyOn(rows, reqs, node)
    ensures Total(rows, reqs, node)
         == Amount(SumOn(rows, reqs, node, CPU), SumOn(rows, reqs, node, MEMORY), SumOn(rows, reqs, node, STORAGE))
  {
    if rows != [] {
      ScheduledIsSum(rows[..|rows| - 1], reqs, node);
      assert rows == rows[..|rows| - 1] + [rows[|rows| - 1]];
    }
  }

  /** The records that report resources, in order. */
  function Reporting(nodes: seq<NodeRecord>): (r: seq<NodeRecord>)
    ensures forall n :: n in r <==> n in nodes && n.resources.Some?
  {
    if nodes == [] then []
    else
      var init, last := nodes[..|nodes| - 1], nodes[|nodes| - 1];
      assert nodes == init + [last];
      if last.resources.Some? then Reporting(init) + [last] else Reporting(init)
  }

  /**
   * A candidate is its record, with reserved amounts raised to what the node's rows sum up to and its active host
   * ports.
   */
  ghost predicate Mirrors(c: Node, n: NodeRecord, t: Tables)
    requires n.resources.Some?
  {
    var r, any := n.resources.value, AnyOn(t.rows, t.requirements, n.id);
    var cpu, memory := SumOn(t.rows, t.requirements, n.id, CPU), SumOn(t.rows, t.requirements, n.id, MEMORY);
    var storage := SumOn(t.rows, t.requirements, n.id, STORAGE);
    && c.id == n.id && c.status == n.status && c.schedulingEnabled == n.schedulingEnabled
    && c.architecture == n.architecture && c.region == n.region && c.labels == n.labels && c.runtimes == n.runtimes
    && c.resources.cpuMilli.allocatable == r.cpuMilli.allocatable
    && c.resources.memoryMib.allocatable == r.memoryMib.allocatable
    && c.resources.storageMib.allocatable == r.storageMib.allocatable
    && c.resources.cpuMilli.reserved == (if any && cpu > r.cpuMilli.reserved then cpu else r.cpuMilli.reserved)
    && c.resources.memoryMib.reserved == (if any && memory > r.memoryMib.reserved then memory else r.memoryMib.reserved)
    && c.resources.storageMib.reserved
        == (if any && storage > r.storageMib.reserved then storage else r.storageMib.reserved)
    && forall h :: h in c.reservedHostPorts <==> Reservation(n.id, h) in t.reservations
  }

  ghost predicate AllMirror(candidates: seq<Node>, t: Tables) {
    && |candidates| == |Reporting(t.nodes)|
    && forall i :: 0 <= i < |candidates| ==>
        Reporting(t.nodes)[i].resources.Some? && Mirrors(candidates[i], Reporting(t.nodes)[i], t)
  }

  lemma CandidateMirrors(t: Tables, n: NodeRecord)
    requires n.resources.Some?
    ensures Mirrors(CandidateOf(t, n), n, t)
  {
    ScheduledIsSum(t.rows, t.requirements, n.id);
    forall h ensures h in ActivePorts(t.reservations, n.id) <==> Reservation(n.id, h) in t.reservations {
      if Reservation(n.id, h) in t.reservations {
        assert Reservation(n.id, h).hostPort == h;
      }
    }
    hide ActivePorts, SumOn;
  }

  lemma {:induction false} CandidatesMirror(t: Tables, nodes: seq<NodeRecord>)
    ensures |Candidates(t, nodes)| == |Reporting(nodes)|
    ensures forall i :: 0 <= i < |Candidates(t, nodes)| ==>
              Reporting(nodes)[i].resources.Some? && Mirrors(Candidates(t, nodes)[i], Reporting(nodes)[i], t)
  {
    hide Mirrors, CandidateOf;
    if nodes != [] {
      CandidatesMirror(t, nodes[..|nodes| - 1]);
      if nodes[|nodes| - 1].resources.Some? {
        CandidateMirrors(t, nodes[|nodes| - 1]);
      }
    }
  }

  /** A record that may carry a workload with these requirements, its amounts and ports aside. */
  ghost predicate Suits(n: NodeRecord, req: Requirements) {
    && n.resources.Some? && n.status == Ready && n.schedulingEnabled && req.runtime in n.runtimes
    && (req.architecture.Some? ==> n.architecture == req.architecture.value)
    && (req.region.Some? ==> n.region == req.region)
    && (req.requiredNode.Some? ==> n.id == req.requiredNode.value)
    && forall l :: l in req.requiredLabels ==> l.key in n.labels && n.labels[l.key] == l.value
  }

  /** The rows are new ones of the deployment, each on a record that suits it, with its fixed host ports free before. */
  ghost predicate AllSuit(t: Tables, deployment: DeploymentId, stored: Requirements, ports: seq<PortSpec>,
                          added: seq<WorkloadRow>) {
    forall i :: 0 <= i < |added| ==>
      && added[i].deployment == deployment && added[i].actual == Actual.Pending
      && exists n :: n in t.nodes && added[i].node == Some(n.id) && Suits(n, stored)
           && forall h :: h in FixedHostPorts(ports) ==> Reservation(n.id, h) !in t.reservations
  }

  lemma ChoicesSuit(t: Tables, ask: Ask, stored: Requirements, ports: seq<PortSpec>, added: seq<WorkloadRow>)
    requires MayPlace(t, ask, stored, ports) && ChosenInTurn(Candidates(t, t.nodes), ask, added)
    ensures AllSuit(t, ask.deployment, stored, ports, added)
  {
    hide Candidates, FixedHostPorts;
    forall i | 0 <= i < |added|
      ensures added[i].deployment == ask.deployment && added[i].actual == Actual.Pending
      ensures exists n :: n in t.nodes && added[i].node == Some(n.id) && Suits(n, stored)
                && forall h :: h in FixedHostPorts(ports) ==> Reservation(n.id, h) !in t.reservations
    {
      RowsAreNew(Candidates(t, t.nodes), ask, added, i);
      PlacementsSuit(t, ask, added, i);
      var n :| n in t.nodes && added[i].node == Some(n.id) && Suits(n, ask.req)
               && forall h :: h in ask.req.requestedHostPorts ==> Reservation(n.id, h) !in t.reservations;
      assert Suits(n, stored);
    }
  }

  lemma {:induction false} RowsAreNew(candidates: seq<Node>, ask: Ask, added: seq<WorkloadRow>, i: nat)
    requires ChosenInTurn(candidates, ask, added) && i < |added|
    ensures added[i].deployment == ask.deployment && added[i].actual == Actual.Pending
  {
    if i < |added| - 1 {
      RowsAreNew(candidates, ask, added[..|added| - 1], i);
    }
  }

  /** Reserving changes nothing but reserved amounts. */
  lemma {:induction false} ReservingAllKeepsRest(candidates: seq<Node>, added: seq<WorkloadRow>, req: Requirements,
                                                 k: nat)
    requires k < |candidates| && forall i, j :: 0 <= i < j < |candidates| ==> candidates[i].id != candidates[j].id
    ensures ReservingAll(candidates, added, req)[k].(resources := candidates[k].resources) == candidates[k]
  {
    if added != [] {
      var init, last := added[..|added| - 1], added[|added| - 1];
      ReservingAllKeepsRest(candidates, init, req, k);
      ReservingAllKeepsIds(candidates, init, req);
      if last.node.Some? {
        ReservingAt(ReservingAll(candidates, init, req), last.node.value, req, k);
      }
    }
  }

  /** Every placement is on a record that suits the deployment, with its fixed host ports free before the pass. */
  lemma {:induction false} PlacementsSuit(t: Tables, ask: Ask, added: seq<WorkloadRow>, i: nat)
    requires ValidTables(t) && ChosenInTurn(Candidates(t, t.nodes), ask, added) && i < |added|
    ensures exists n :: n in t.nodes && added[i].node == Some(n.id) && Suits(n, ask.req)
                        && forall h :: h in ask.req.requestedHostPorts ==> Reservation(n.id, h) !in t.reservations
  {
    hide ReservingAll, Candidates, NothingBefore;
    var init, last := added[..|added| - 1], added[|added| - 1];
    if i < |init| {
      hide Suits;
      PlacementsSuit(t, ask, init, i);
    } else {
      LastSuits(t, ask, init, last.node.value);
    }
  }

  lemma LastSuits(t: Tables, ask: Ask, init: seq<WorkloadRow>, node: NodeId)
    requires ValidTables(t)
    requires Decides(NodeSet(ReservingAll(Candidates(t, t.nodes), init, ask.req)), Pinned(ask, init), Some(node))
    ensures exists n :: n in t.nodes && node == n.id && Suits(n, ask.req)
                        && forall h :: h in ask.req.requestedHostPorts ==> Reservation(n.id, h) !in t.reservations
  {
    hide ReservingAll, Candidates, NothingBefore, ValidTables;
    var loaded := Candidates(t, t.nodes);
    var c :| c in NodeSet(ReservingAll(loaded, init, ask.req)) && c.id == node && Eligible(c, Pinned(ask, init));
    var k :| 0 <= k < |loaded| && ReservingAll(loaded, init, ask.req)[k] == c;
    FreshCandidatesCover(t, t.nodes);
    ReservingAllKeepsRest(loaded, init, ask.req, k);
    CandidatesMirror(t, t.nodes);
    var n := Reporting(t.nodes)[k];
    assert n in Reporting(t.nodes) && Mirrors(loaded[k], n, t);
    hide SumOn, AnyOn;
    assert Suits(n, ask.req);
  }

  // ---------------------------------------------------------------------------------------------------------------
  // The tables in place.

  datatype Outcome = Complete | NoEligibleNode | NoHostPort

  class Database {
    var nodes: seq<NodeRecord>
    var rows: seq<WorkloadRow>
    var requirements: RequirementTable
    var reservations: seq<Reservation>

    constructor (nodes: seq<NodeRecord>)
      ensures this.nodes == nodes && rows == [] && requirements == map[] && reservations == []
    {
      this.nodes, rows, requirements, reservations := nodes, [], map[], [];
    }

    ghost function Contents(): Tables
      reads this
    {
      Tables(nodes, rows, requirements, reservations)
    }

    /** The totals per node, gathered in one sweep over the rows. */
    method ReservationsByNode() returns (byNode: map<NodeId, Amount>)
      ensures forall n :: Scheduled(rows, requirements, n) == if n in byNode then Some(byNode[n]) else None
    {
      byNode := map[];
      for i := 0 to |rows|
        invariant forall n :: Scheduled(rows[..i], requirements, n) == if n in byNode then Some(byNode[n]) else None
      {
        assert rows[..i + 1][..i] == rows[..i] && rows[..i + 1][i] == rows[i];
        var row := rows[i];
        if row.node.Some? && row.actual != Actual.Stopped && row.deployment in requirements
            && requirements[row.deployment].Some? {
          var reserved := if row.node.value in byNode then byNode[row.node.value] else NOTHING;
          byNode := byNode[row.node.value := Plus(reserved, Wanted(requirements[row.deployment].value))];
        }
      }
      assert rows[..|rows|] == rows;
    }

    method LoadCandidates() returns (candidates: array<Node>)
      ensures fresh(candidates) && candidates[..] == Candidates(Contents(), nodes)
      ensures AllMirror(candidates[..], Contents())
    {
      var byNode := ReservationsByNode();
      var found: seq<Node> := [];
      for i := 0 to |nodes|
        invariant found == Candidates(Contents(), nodes[..i])
      {
        assert nodes[..i + 1][..i] == nodes[..i] && nodes[..i + 1][i] == nodes[i];
        var n := nodes[i];
        if n.resources.Some? {
          var scheduled := if n.id in byNode then Some(byNode[n.id]) else None;
          found := found + [Node(n.id, n.status, n.schedulingEnabled, n.architecture, n.region, n.labels, n.runtimes,
                                 WithScheduledReservations(n.resources.value, scheduled),
                                     ActivePorts(reservations, n.id))];
        }
      }
      assert nodes[..|nodes|] == nodes;
      candidates := new Node[|found|](i requires 0 <= i < |found| => found[i]);
      assert candidates[..] == found;
      CandidatesMirror(Contents(), nodes);
    }

    /**
     * Places up to `missing` workloads of a deployment, one after another. `seeds` stands for the fresh workload ids
     * the port search hashes. It stops early when no node is eligible or no host port is left on the chosen node.
     */
    method PlaceMissing(deployment: DeploymentId, stored: Requirements, persistent: bool, ports: seq<PortSpec>,
                        missing: nat, seeds: PlacementSeeds)
      returns (outcome: Outcome, ghost added: seq<WorkloadRow>, ghost placed: seq<seq<Assigned>>)
      requires ValidTables(Contents()) && deployment in requirements && requirements[deployment] == Some(stored)
      requires FixedHostPorts(ports) != [] ==> missing <= 1
      modifies this
      ensures nodes == old(nodes)
      ensures requirements == old(requirements)[deployment := Some(Pinned(Ask(deployment, stored, persistent), added))]
      ensures rows == old(rows) + added && |added| == |placed| && |added| <= missing
      ensures ChosenInTurn(Candidates(old(Contents()), old(nodes)),
                Ask(deployment, Asking(stored, ports), persistent), added)
      ensures reservations == ReservationsAfter(old(reservations), added, placed)
      ensures PortsAssigned(old(reservations), ports, seeds, added, placed)
      ensures forall i :: 0 <= i < |placed| ==> Answers(PublicPorts(ports), placed[i])
      ensures PortsApart(ports) && ReservationsUnique(old(reservations)) ==> ReservationsUnique(reservations)
      ensures WithinCapacity(old(Contents())) ==> WithinCapacity(Contents())
      ensures AllSuit(old(Contents()), deployment, stored, ports, added)
      ensures outcome.Complete? <==> |added| == missing
      ensures outcome.NoEligibleNode? ==>
                Decides(NodeSet(ReservingAll(Candidates(old(Contents()), old(nodes)), added, Asking(stored, ports))),
                        Pinned(Ask(deployment, Asking(stored, ports), persistent), added), None)
      ensures outcome.NoHostPort? ==>
                exists n :: Assignment(ports, ActivePorts(reservations, n), SeedsFor(seeds, |added|)) == None
                  && Decides(NodeSet(ReservingAll(Candidates(old(Contents()), old(nodes)), added,
                      Asking(stored, ports))),
                             Pinned(Ask(deployment, Asking(stored, ports), persistent), added), Some(n))
    {
      hide AllSuit, Candidates, ReservingAll, Reserving, Decides, InProgress, ActivePorts, Safe, Clean, Held, Answers;
      hide Assignment;
      hide ReservationsUnique, WithinCapacity, ChosenInTurn, ReservationsAfter, Pinned, PortsApart, ValidTables;
      hide PortsAssigned;
      ghost var before := Contents();
      ghost var loaded := Candidates(before, nodes);
      var req := Asking(stored, ports);
      var ask := Ask(deployment, req, persistent);
      var candidates := LoadCandidates();
      added, placed := [], [];
      StartPlacing(before, ask, stored, ports, seeds);
      for index := 0 to missing
        invariant fresh(candidates) && candidates[..] == ReservingAll(loaded, added, ask.req)
        invariant InProgress(before, ask, stored, ports, seeds, added, placed, Contents())
        invariant |added| == index && req == Pinned(ask, added)
      {
        var decision := ScheduleWorkload(candidates[..], req);
        if decision.None? {
          EndPlacing(before, ask, stored, ports, seeds, added, placed, Contents());
          ChoicesSuit(before, ask, stored, ports, added);
          return NoEligibleNode, added, placed;
        }
        var node := decision.value;
        var active := ActivePorts(reservations, node);
        var ours := AssignHostPorts(ports, active, SeedsFor(seeds, index));
        if ours.None? {
          EndPlacing(before, ask, stored, ports, seeds, added, placed, Contents());
          ChoicesSuit(before, ask, stored, ports, added);
          return NoHostPort, added, placed;
        }
        var row := WorkloadRow(deployment, Some(node), Actual.Pending);
        NextPlacing(before, ask, stored, ports, seeds, added, placed, Contents(), node, ours.value);
        rows := rows + [row];
        reservations := reservations + ReservationsFor(node, ours.value);
        if persistent && req.requiredNode.None? {
          req := req.(requiredNode := Some(node));
          requirements := requirements[deployment := Some(stored.(requiredNode := Some(node)))];
        }
        NextCandidates(before, ask, added, node, req);
        Reserve(candidates, node, req);
        added, placed := added + [row], placed + [ours.value];
      }
      EndPlacing(before, ask, stored, ports, seeds, added, placed, Contents());
      ChoicesSuit(before, ask, stored, ports, added);
      outcome := Complete;
    }
  }

  /** Adds the requirements to the candidate in place. */
  method Reserve(candidates: array<Node>, node: NodeId, req: Requirements)
    requires forall j, k :: 0 <= j < k < candidates.Length ==> candidates[j].id != candidates[k].id
    modifies candidates
    ensures forall i :: 0 <= i < candidates.Length ==>
              var was, now := old(candidates[i]).resources, candidates[i].resources;
              if candidates[i].id != node then candidates[i] == old(candidates[i])
              else
                && candidates[i] == old(candidates[i]).(resources := now)
                && now.cpuMilli == was.cpuMilli.(reserved := was.cpuMilli.reserved + req.cpuMilli)
                && now.memoryMib == was.memoryMib.(reserved := was.memoryMib.reserved + req.memoryMib)
                && now.storageMib == was.storageMib.(reserved := was.storageMib.reserved + req.storageMib)
    ensures candidates[..] == Reserving(old(candidates[..]), node, req)
  {
    ghost var was := candidates[..];
    var i := 0;
    while i < candidates.Length && candidates[i].id != node
      invariant 0 <= i <= candidates.Length && candidates[..] == was
      invariant forall j :: 0 <= j < i ==> candidates[j].id != node
    {
      i := i + 1;
    }
    if i < candidates.Length {
      candidates[i] := Bump(candidates[i], req);
    }
    forall k | 0 <= k < |was| ensures candidates[k] == Reserving(was, node, req)[k] {
      ReservingAt(was, node, req, k);
    }
    assert candidates[..] == Reserving(was, node, req);
  }

  /** The seeds of a pass: each placement hashes a fresh workload id. */
  type PlacementSeeds = (nat, PortSpec) -> string

  function SeedsFor(seeds: PlacementSeeds, index: nat): Seeds { (port: PortSpec) => seeds(index, port) }

  /** Each placement's ports are the assignment on its node beside the reservations made before it. */
  ghost predicate PortsAssigned(reservations: seq<Reservation>, ports: seq<PortSpec>, seeds: PlacementSeeds,
                                added: seq<WorkloadRow>, placed: seq<seq<Assigned>>)
    requires |added| == |placed|
  {
    if added == [] then true
    else
      var n := |added| - 1;
      && PortsAssigned(reservations, ports, seeds, added[..n], placed[..n])
      && added[n].node.Some?
      && Assignment(ports, ActivePorts(ReservationsAfter(reservations, added[..n], placed[..n]),
          added[n].node.value), SeedsFor(seeds, n)) == Some(placed[n])
  }

  lemma PortsAssignedSnoc(reservations: seq<Reservation>, ports: seq<PortSpec>, seeds: PlacementSeeds,
                          added: seq<WorkloadRow>, placed: seq<seq<Assigned>>, row: WorkloadRow, ours: seq<Assigned>)
    requires |added| == |placed| && row.node.Some?
    ensures PortsAssigned(reservations, ports, seeds, added + [row], placed + [ours])
       <==> && PortsAssigned(reservations, ports, seeds, added, placed)
            && Assignment(ports, ActivePorts(ReservationsAfter(reservations, added, placed), row.node.value),
                SeedsFor(seeds, |added|)) == Some(ours)
  {
    hide Assignment, ActivePorts, ReservationsAfter;
    assert (added + [row])[..|added|] == added && (placed + [ours])[..|added|] == placed;
  }

  /** The requirements a pass schedules with: the stored ones, which name no host ports, and the fixed host ports. */
  function Asking(stored: Requirements, ports: seq<PortSpec>): (r: Requirements)
    ensures Wanted(r) == Wanted(stored)
  {
    stored.(requestedHostPorts := FixedHostPorts(ports))
  }

  /** What the tables hold after the placements `added` with the ports `placed`. */
  ghost predicate InProgress(t: Tables, ask: Ask, stored: Requirements, ports: seq<PortSpec>, seeds: PlacementSeeds,
                             added: seq<WorkloadRow>, placed: seq<seq<Assigned>>, now: Tables) {
    && |added| == |placed| && (forall i :: 0 <= i < |added| ==> added[i].node.Some?)
    && ChosenInTurn(Candidates(t, t.nodes), ask, added)
    && (forall i :: 0 <= i < |placed| ==> Answers(PublicPorts(ports), placed[i]))
    && PortsAssigned(t.reservations, ports, seeds, added, placed)
    && now == Tables(t.nodes, t.rows + added,
        t.requirements[ask.deployment := Some(Pinned(ask.(req := stored), added))],
                     ReservationsAfter(t.reservations, added, placed))
    && (PortsApart(ports) && ReservationsUnique(t.reservations) ==> ReservationsUnique(now.reservations))
  }

  ghost predicate MayPlace(t: Tables, ask: Ask, stored: Requirements, ports: seq<PortSpec>) {
    ValidTables(t) && ask.deployment in t.requirements && t.requirements[ask.deployment] == Some(stored)
        && ask.req == Asking(stored, ports)
  }

  lemma StartPlacing(t: Tables, ask: Ask, stored: Requirements, ports: seq<PortSpec>, seeds: PlacementSeeds)
    requires MayPlace(t, ask, stored, ports)
    ensures ReservingAll(Candidates(t, t.nodes), [], ask.req) == Candidates(t, t.nodes) && Pinned(ask, []) == ask.req
    ensures InProgress(t, ask, stored, ports, seeds, [], [], t)
  {
    hide ValidTables;
    assert t.rows + [] == t.rows;
    assert t.requirements == t.requirements[ask.deployment := Some(stored)];
  }

  lemma NextPlacing(t: Tables, ask: Ask, stored: Requirements, ports: seq<PortSpec>, seeds: PlacementSeeds,
                    added: seq<WorkloadRow>, placed: seq<seq<Assigned>>, now: Tables, node: NodeId,
                    ours: seq<Assigned>)
    requires MayPlace(t, ask, stored, ports) && InProgress(t, ask, stored, ports, seeds, added, placed, now)
    requires FixedHostPorts(ports) != [] ==> added == []
    requires Decides(NodeSet(ReservingAll(Candidates(t, t.nodes), added, ask.req)), Pinned(ask, added), Some(node))
    requires Answers(PublicPorts(ports), ours)
    requires Assignment(ports, ActivePorts(now.reservations, node), SeedsFor(seeds, |added|)) == Some(ours)
    requires Safe(ports, ActivePorts(now.reservations, node)) ==> Clean(ActivePorts(now.reservations, node), ours)
    ensures var row := WorkloadRow(ask.deployment, Some(node), Actual.Pending);
            && InProgress(t, ask, stored, ports, seeds, added + [row], placed + [ours],
                          Tables(now.nodes, now.rows + [row],
                                 if ask.persistent && Pinned(ask, added).requiredNode.None?
                                 then now.requirements[ask.deployment := Some(stored.(requiredNode := Some(node)))]
                                     else now.requirements,
                                 now.reservations + ReservationsFor(node, ours)))
            && Pinned(ask, added + [row])
               == (if ask.persistent && Pinned(ask, added).requiredNode.None?
                   then Pinned(ask, added).(requiredNode := Some(node)) else Pinned(ask, added))
  {
    hide Decides, Safe, Answers, Clean, Held, ActivePorts, Candidates, ReservationsUnique, ChosenInTurn, Reserving;
    hide ReservingAll;
    hide ReservationsAfter, Pinned, PortsApart, ValidTables, Assignment, PublicPorts, FixedHostPorts, PortsAssigned;
    hide SeedsFor, ReservationsFor;
    PortsAssignedSnoc(t.reservations, ports, seeds, added, placed,
        WorkloadRow(ask.deployment, Some(node), Actual.Pending), ours);
    var row := WorkloadRow(ask.deployment, Some(node), Actual.Pending);
    NextChoice(t, ask, added, row);
    if PortsApart(ports) && ReservationsUnique(t.reservations) {
      NextReservations(t, ports, ask, added, placed, node, ours);
    }
    NextTables(Candidates(t, t.nodes), t.reservations, added, placed, ask.req, row, ours);
    NextPins(ask, stored, added, row);
    assert t.rows + (added + [row]) == now.rows + [row];
  }

  /** The candidates after one more placement, whatever affinity the requirements are pinned to. */
  lemma NextCandidates(t: Tables, ask: Ask, added: seq<WorkloadRow>, node: NodeId, req: Requirements)
    requires ValidTables(t) && Wanted(req) == Wanted(ask.req)
    ensures var next := WorkloadRow(ask.deployment, Some(node), Actual.Pending);
            ReservingAll(Candidates(t, t.nodes), added + [next], ask.req)
            == Reserving(ReservingAll(Candidates(t, t.nodes), added, ask.req), node, req)
    ensures forall i, j :: 0 <= i < j < |Candidates(t, t.nodes)| ==>
              ReservingAll(Candidates(t, t.nodes), added, ask.req)[i].id
              != ReservingAll(Candidates(t, t.nodes), added, ask.req)[j].id
  {
    hide Candidates, Reserving;
    var row := WorkloadRow(ask.deployment, Some(node), Actual.Pending);
    assert (added + [row])[..|added|] == added;
    ReservingReadsAmounts(ReservingAll(Candidates(t, t.nodes), added, ask.req), node, req, ask.req);
    FreshCandidatesCover(t, t.nodes);
    ReservingAllKeepsIds(Candidates(t, t.nodes), added, ask.req);
  }

  lemma EndPlacing(t: Tables, ask: Ask, stored: Requirements, ports: seq<PortSpec>, seeds: PlacementSeeds,
                   added: seq<WorkloadRow>, placed: seq<seq<Assigned>>, now: Tables)
    requires MayPlace(t, ask, stored, ports) && InProgress(t, ask, stored, ports, seeds, added, placed, now)
    ensures now == Tables(t.nodes, t.rows + added,
              t.requirements[ask.deployment := Some(Pinned(ask.(req := stored), added))],
                          ReservationsAfter(t.reservations, added, placed))
    ensures |added| == |placed| && ChosenInTurn(Candidates(t, t.nodes), ask, added)
    ensures forall i :: 0 <= i < |placed| ==> Answers(PublicPorts(ports), placed[i])
    ensures PortsAssigned(t.reservations, ports, seeds, added, placed)
    ensures PortsApart(ports) && ReservationsUnique(t.reservations) ==> ReservationsUnique(now.reservations)
    ensures WithinCapacity(t) ==> WithinCapacity(now)
  {
    hide Answers, PublicPorts, FixedHostPorts, ReservationsAfter, PortsAssigned, PortsApart, ReservationsUnique;
    hide WithinCapacity, Candidates, ChosenInTurn, ValidTables;
    CapacityKept(t, ask, added, now.requirements, now.reservations);
  }

  /** What the pin does after one more placement. */
  lemma NextPin(ask: Ask, added: seq<WorkloadRow>, row: WorkloadRow)
    ensures Pinned(ask, added + [row])
         == if ask.persistent && Pinned(ask, added).requiredNode.None? && added == []
             then ask.req.(requiredNode := row.node) else Pinned(ask, added)
  {
  }

  /** The stored requirements are pinned along with the ones the pass asks with. */
  lemma PinsAgree(ask: Ask, stored: Requirements, added: seq<WorkloadRow>)
    requires ask.req.requiredNode == stored.requiredNode && forall i :: 0 <= i < |added| ==> added[i].node.Some?
    ensures Pinned(ask, added).requiredNode == Pinned(ask.(req := stored), added).requiredNode
    ensures ask.persistent && Pinned(ask, added).requiredNode.None? ==> added == []
    ensures Pinned(ask, []) == ask.req && Pinned(ask.(req := stored), []) == stored
  {
  }

  lemma NextPins(ask: Ask, stored: Requirements, added: seq<WorkloadRow>, row: WorkloadRow)
    requires ask.req.requiredNode == stored.requiredNode && row.node.Some?
    requires forall i :: 0 <= i < |added| ==> added[i].node.Some?
    ensures var both := ask.persistent && Pinned(ask, added).requiredNode.None?;
            && Pinned(ask, added + [row])
                == (if both then Pinned(ask, added).(requiredNode := row.node) else Pinned(ask, added))
            && Pinned(ask.(req := stored), added + [row]) == if both then stored.(requiredNode := row.node)
                else Pinned(ask.(req := stored), added)
  {
    PinsAgree(ask, stored, added);
    NextPin(ask, added, row);
    NextPin(ask.(req := stored), added, row);
  }

  lemma CapacityKept(t: Tables, ask: Ask, added: seq<WorkloadRow>, requirements: RequirementTable,
                     reservations: seq<Reservation>)
    requires ValidTables(t) && Stored(t, ask) && ChosenInTurn(Candidates(t, t.nodes), ask, added)
    requires SameAmounts(t.requirements, requirements)
    ensures WithinCapacity(t) ==> WithinCapacity(Tables(t.nodes, t.rows + added, requirements, reservations))
  {
    if WithinCapacity(t) {
      ChosenIsAdmitted(t, ask, added);
      AdmissionKeepsCapacity(t, ask.deployment, added);
      hide Scheduled, Total;
      forall n | n in t.nodes ensures Total(t.rows + added, t.requirements, n.id)
          == Total(t.rows + added, requirements, n.id) {
        SameAmountsSameTotal(t.rows + added, t.requirements, requirements, n.id);
      }
    }
  }

  /** Only node affinities may differ. */
  ghost predicate SameAmounts(a: RequirementTable, b: RequirementTable) {
    && a.Keys == b.Keys
    && forall d :: d in a ==> (a[d].Some? <==> b[d].Some?) && (a[d].Some? ==> Wanted(a[d].value) == Wanted(b[d].value))
  }

  /** Requirements that ask for the same amounts give the same totals. */
  lemma {:induction false} SameAmountsSameTotal(rows: seq<WorkloadRow>, reqs: RequirementTable,
                                                reqs': RequirementTable, node: NodeId)
    requires forall row :: row in rows ==>
               && (Counts(row, reqs, node) <==> Counts(row, reqs', node))
               && (Counts(row, reqs, node) ==>
                   Wanted(reqs[row.deployment].value) == Wanted(reqs'[row.deployment].value))
    ensures Total(rows, reqs, node) == Total(rows, reqs', node)
  {
    if rows != [] {
      var init, last := rows[..|rows| - 1], rows[|rows| - 1];
      SameAmountsSameTotal(init, reqs, reqs', node);
      assert rows == init + [last];
      TotalSnoc(init, last, reqs, node);
      TotalSnoc(init, last, reqs', node);
    }
  }

  lemma NextChoice(t: Tables, ask: Ask, added: seq<WorkloadRow>, row: WorkloadRow)
    requires ValidTables(t) && ChosenInTurn(Candidates(t, t.nodes), ask, added)
    requires row.deployment == ask.deployment && row.actual == Actual.Pending && row.node.Some?
    requires Decides(NodeSet(ReservingAll(Candidates(t, t.nodes), added, ask.req)), Pinned(ask, added), row.node)
    ensures ChosenInTurn(Candidates(t, t.nodes), ask, added + [row])
    ensures forall i, j :: 0 <= i < j < |Candidates(t, t.nodes)| ==>
              ReservingAll(Candidates(t, t.nodes), added, ask.req)[i].id
              != ReservingAll(Candidates(t, t.nodes), added, ask.req)[j].id
  {
    hide Decides, Pinned;
    assert (added + [row])[..|added|] == added;
    FreshCandidatesCover(t, t.nodes);
    ReservingAllKeepsIds(Candidates(t, t.nodes), added, ask.req);
  }

  lemma {:induction false} ReservingReadsAmounts(candidates: seq<Node>, node: NodeId, a: Requirements, b: Requirements)
    requires Wanted(a) == Wanted(b)
    ensures Reserving(candidates, node, a) == Reserving(candidates, node, b)
  {
    if candidates != [] {
      ReservingReadsAmounts(candidates[1..], node, a, b);
    }
  }

  lemma NextTables(loaded: seq<Node>, reservations: seq<Reservation>, added: seq<WorkloadRow>,
                   placed: seq<seq<Assigned>>, req: Requirements, row: WorkloadRow, ours: seq<Assigned>)
    requires row.node.Some? && |added| == |placed|
    ensures ReservingAll(loaded, added + [row], req) == Reserving(ReservingAll(loaded, added, req), row.node.value, req)
    ensures ReservationsAfter(reservations, added + [row], placed + [ours])
         == ReservationsAfter(reservations, added, placed) + ReservationsFor(row.node.value, ours)
  {
    assert (added + [row])[..|added|] == added && (placed + [ours])[..|added|] == placed;
  }

  /** With fixed ports there is only the first placement, whose node was chosen with those ports free. */
  lemma NextReservations(t: Tables, ports: seq<PortSpec>, ask: Ask, added: seq<WorkloadRow>,
                         placed: seq<seq<Assigned>>, node: NodeId, ours: seq<Assigned>)
    requires ValidTables(t) && |added| == |placed| && PortsApart(ports)
    requires FixedHostPorts(ports) != [] ==> added == []
    requires ask.req.requestedHostPorts == FixedHostPorts(ports)
    requires Decides(NodeSet(ReservingAll(Candidates(t, t.nodes), added, ask.req)), Pinned(ask, added), Some(node))
    requires ReservationsUnique(ReservationsAfter(t.reservations, added, placed))
    requires var active := ActivePorts(ReservationsAfter(t.reservations, added, placed), node);
             Safe(ports, active) ==> Clean(active, ours)
    ensures ReservationsUnique(ReservationsAfter(t.reservations, added, placed) + ReservationsFor(node, ours))
  {
    hide ReservationsUnique, Clean, Candidates, ActivePorts;
    var reservations := ReservationsAfter(t.reservations, added, placed);
    var active := ActivePorts(reservations, node);
    if FixedHostPorts(ports) != [] {
      FreshCandidatesCover(t, t.nodes);
      var c :| c in NodeSet(Candidates(t, t.nodes)) && c.id == node && Eligible(c, Pinned(ask, added));
      EligibleIsApart(c, Pinned(ask, added), ports, active);
    }
    assert Safe(ports, active);
    NewReservationsAreUnique(reservations, node, ours);
  }
}
