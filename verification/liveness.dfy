/** What agents report about nodes and workloads, and what their silence means. */
module Liveness {
  import opened Wrappers
  import opened Lifecycle
  import Scheduler
  import Reconciler

  type VolumeId = Reconciler.VolumeId

  const NODE_UNHEALTHY_AFTER_MS := 45_000
  const NODE_OFFLINE_AFTER_MS := 90_000

  datatype NodeRow = NodeRow(
    status: Scheduler.NodeStatus, lastHeartbeatAt: Option<int>, unhealthyAt: Option<int>, offlineAt: Option<int>)

  type Nodes = map<NodeId, NodeRow>

  type Volumes = map<VolumeId, Reconciler.Volume>

  /** A workload row with what telemetry compares a report against. */
  datatype Observed = Observed(row: Workload, generation: nat, healthCheckedAt: Option<int>)

  type ObservedRows = map<WorkloadId, Observed>

  // ---------------------------------------------------------------------------------------------------------------
  // The statements of a tick.

  predicate SilentFor(node: NodeRow, now: int, ms: int) {
    node.lastHeartbeatAt.Some? && node.lastHeartbeatAt.value < now - ms
  }

  predicate TurnsUnhealthy(node: NodeRow, now: int) {
    (node.status == Scheduler.Ready || node.status == Scheduler.Draining)
        && SilentFor(node, now, NODE_UNHEALTHY_AFTER_MS)
  }

  predicate TurnsOffline(node: NodeRow, now: int) {
    node.status == Scheduler.Unhealthy && SilentFor(node, now, NODE_OFFLINE_AFTER_MS)
  }

  function MarkUnhealthy(nodes: Nodes, now: int): Nodes {
    map n | n in nodes :: if TurnsUnhealthy(nodes[n], now)
        then nodes[n].(status := Scheduler.Unhealthy, unhealthyAt := Some(now)) else nodes[n]
  }

  function MarkOffline(nodes: Nodes, now: int): Nodes {
    map n | n in nodes :: if TurnsOffline(nodes[n], now)
        then nodes[n].(status := Scheduler.Offline, offlineAt := Some(now)) else nodes[n]
  }

  function NodesAfter(nodes: Nodes, now: int): Nodes { MarkOffline(MarkUnhealthy(nodes, now), now) }

  /** The nodes the second statement takes offline. */
  function Offline(nodes: Nodes, now: int): set<NodeId> {
    set n | n in nodes && TurnsOffline(nodes[n], now)
  }

  /** The nodes a tick takes offline. */
  function Stale(nodes: Nodes, now: int): set<NodeId> { Offline(MarkUnhealthy(nodes, now), now) }

  function VolumesAfter(volumes: Volumes, stale: set<NodeId>): Volumes {
    map v | v in volumes ::
      if volumes[v].node.Some? && volumes[v].node.value in stale
         && (volumes[v].status == Reconciler.Available || volumes[v].status == Reconciler.InUse)
      then volumes[v].(status := Reconciler.Unavailable) else volumes[v]
  }

  predicate LosesItsNode(workload: Workload, stale: set<NodeId>) {
    workload.node in stale && workload.desired == Desired.Running
  }

  function RowsAfter(rows: ObservedRows, stale: set<NodeId>, persistent: set<WorkloadId>): ObservedRows {
    map w | w in rows ::
      if LosesItsNode(rows[w].row, stale) then rows[w].(row := LostWithNode(rows[w].row, w in persistent)) else rows[w]
  }

  /** The workloads whose agents get a stop command for when they return. */
  function ToStop(rows: ObservedRows, stale: set<NodeId>, persistent: set<WorkloadId>): set<WorkloadId> {
    set w | w in rows && LosesItsNode(rows[w].row, stale) && w !in persistent
  }

  // ---------------------------------------------------------------------------------------------------------------
  // Heartbeats and telemetry.

  predicate Reportable(status: Scheduler.NodeStatus) {
    status != Scheduler.Provisioning && status != Scheduler.Decommissioned
  }

  function Beaten(node: NodeRow, status: Scheduler.NodeStatus, now: int): NodeRow {
    NodeRow(status, Some(now),
            if status == Scheduler.Ready then None else if status == Scheduler.Unhealthy then Some(now)
                else node.unhealthyAt,
            if status == Scheduler.Ready || status == Scheduler.Unhealthy then None else node.offlineAt)
  }

  /** A ready node's volumes come back. */
  function VolumesBack(volumes: Volumes, node: NodeId): Volumes {
    map v | v in volumes ::
      if volumes[v].node == Some(node) && volumes[v].status == Reconciler.Unavailable
          then volumes[v].(status := Reconciler.InUse)
      else volumes[v]
  }

  datatype Report = Report(workload: WorkloadId, generation: nat, actual: Actual, health: Health, observedAt: int)

  datatype Verdict = Accepted | OutsideWindow | RepeatedWorkload | NotAssigned | StaleGeneration | OutdatedReport

  predicate InWindow(r: Report, now: int) { now - 300_000 <= r.observedAt <= now + 60_000 }

  predicate Newer(r: Report, o: Observed) { o.healthCheckedAt.None? || o.healthCheckedAt.value < r.observedAt }

  predicate Distinct(reports: seq<Report>) {
    forall i, j :: 0 <= i < j < |reports| ==> reports[i].workload != reports[j].workload
  }

  function Apply(o: Observed, r: Report): Observed {
    Observed(Reported(o.row, r.actual, r.health), o.generation, Some(r.observedAt))
  }

  /** The WHERE clause of the update a report makes. */
  predicate Writable(rows: ObservedRows, node: NodeId, r: Report) {
    r.workload in rows && rows[r.workload].row.node == node && rows[r.workload].generation == r.generation
        && Newer(r, rows[r.workload])
  }

  /** A batch is judged as a whole before anything is written. */
  function Judge(rows: ObservedRows, node: NodeId, reports: seq<Report>, now: int): Verdict {
    if exists r :: r in reports && !InWindow(r, now) then OutsideWindow
    else if !Distinct(reports) then RepeatedWorkload
    else if exists r :: r in reports && (r.workload !in rows || rows[r.workload].row.node != node) then NotAssigned
    else if exists r :: r in reports && r.workload in rows && rows[r.workload].generation != r.generation
        then StaleGeneration
    else if exists r :: r in reports && r.workload in rows && !Newer(r, rows[r.workload]) then OutdatedReport
    else Accepted
  }

  // ---------------------------------------------------------------------------------------------------------------
  // The rows in place.

  class Fleet {
    var nodes: Nodes
    var volumes: Volumes
    var rows: ObservedRows
    var stopCommands: set<WorkloadId>

    constructor (nodes: Nodes, volumes: Volumes, rows: ObservedRows)
      ensures this.nodes == nodes && this.volumes == volumes && this.rows == rows && stopCommands == {}
    {
      this.nodes, this.volumes, this.rows, stopCommands := nodes, volumes, rows, {};
    }

    /** One tick of the liveness controller; `persistent` are the workloads whose deployment has volumes. */
    method Tick(now: int, persistent: set<WorkloadId>)
      modifies this
      ensures nodes == NodesAfter(old(nodes), now)
      ensures volumes == VolumesAfter(old(volumes), Stale(old(nodes), now))
      ensures rows == RowsAfter(old(rows), Stale(old(nodes), now), persistent)
      ensures stopCommands == old(stopCommands) + ToStop(old(rows), Stale(old(nodes), now), persistent)
    {
      nodes := MarkUnhealthy(nodes, now);
      var stale := Offline(nodes, now);
      nodes := MarkOffline(nodes, now);
      LoseNodes(stale, persistent);
    }

    /** Marks what the stale nodes carried, node by node. */
    method LoseNodes(stale: set<NodeId>, persistent: set<WorkloadId>)
      modifies this
      ensures nodes == old(nodes)
      ensures volumes == VolumesAfter(old(volumes), stale)
      ensures rows == RowsAfter(old(rows), stale, persistent)
      ensures stopCommands == old(stopCommands) + ToStop(old(rows), stale, persistent)
    {
      hide *;
      var left := stale;
      ghost var done: set<NodeId> := {};
      NothingLost(volumes, rows, persistent);
      while left != {}
        invariant left <= stale && done == stale - left
        invariant nodes == old(nodes)
        invariant volumes == VolumesAfter(old(volumes), done)
        invariant rows == RowsAfter(old(rows), done, persistent)
        invariant stopCommands == old(stopCommands) + ToStop(old(rows), done, persistent)
        decreases |left|
      {
        var node :| node in left;
        assert stale - (left - {node}) == done + {node};
        OneMoreNode(old(volumes), old(rows), done, node, persistent);
        volumes := VolumesAfter(volumes, {node});
        stopCommands := stopCommands + ToStop(rows, {node}, persistent);
        rows := RowsAfter(rows, {node}, persistent);
        left, done := left - {node}, done + {node};
      }
      assert done == stale;
    }

    method Heartbeat(node: NodeId, status: Scheduler.NodeStatus, now: int)
      requires node in nodes && Reportable(status)
      modifies this
      ensures nodes.Keys == old(nodes).Keys && forall n :: n in nodes && n != node ==> nodes[n] == old(nodes)[n]
      ensures nodes[node].status == status && nodes[node].lastHeartbeatAt == Some(now)
      ensures nodes[node].unhealthyAt ==
                if status == Scheduler.Ready then None else if status == Scheduler.Unhealthy then Some(now)
                else old(nodes)[node].unhealthyAt
      ensures nodes[node].offlineAt ==
                if status in {Scheduler.Ready, Scheduler.Unhealthy} then None else old(nodes)[node].offlineAt
      ensures volumes.Keys == old(volumes).Keys && forall v :: v in volumes ==>
                var was := old(volumes)[v];
                if status == Scheduler.Ready && was.node == Some(node) && was.status == Reconciler.Unavailable
                then volumes[v] == was.(status := Reconciler.InUse) else volumes[v] == was
      ensures nodes == old(nodes)[node := Beaten(old(nodes)[node], status, now)]
      ensures volumes == (if status == Scheduler.Ready then VolumesBack(old(volumes), node) else old(volumes))
      ensures rows == old(rows) && stopCommands == old(stopCommands)
    {
      nodes := nodes[node := Beaten(nodes[node], status, now)];
      if status == Scheduler.Ready {
        volumes := VolumesBack(volumes, node);
      }
    }

    /** All reports of a batch are applied, or none. */
    method Receive(node: NodeId, reports: seq<Report>, now: int) returns (verdict: Verdict)
      modifies this
      ensures verdict == Judge(old(rows), node, reports, now)
      ensures verdict == Accepted <==>
                && (forall r :: r in reports ==>
                      && now - 300_000 <= r.observedAt <= now + 60_000
                      && r.workload in old(rows) && old(rows)[r.workload].row.node == node
                      && old(rows)[r.workload].generation == r.generation
                      && (old(rows)[r.workload].healthCheckedAt == None
                          || r.observedAt > old(rows)[r.workload].healthCheckedAt.value))
                && forall i, j :: 0 <= i < j < |reports| ==> reports[i].workload != reports[j].workload
      ensures nodes == old(nodes) && volumes == old(volumes) && stopCommands == old(stopCommands)
                && rows.Keys == old(rows).Keys
      ensures verdict != Accepted ==> rows == old(rows)
      ensures verdict == Accepted ==> forall r :: r in reports ==>
                var was, after := old(rows)[r.workload], rows[r.workload];
                && after.row.actual == r.actual && after.row.health == r.health
                && after.row.failures == (if r.health == Health.Unhealthy then was.row.failures + 1 else 0)
                && after.healthCheckedAt == Some(r.observedAt)
                && after.row.node == was.row.node && after.row.desired == was.row.desired
                && after.generation == was.generation
      ensures verdict == Accepted ==> forall w ::
                w in old(rows) && (forall r :: r in reports ==> r.workload != w) ==> rows[w] == old(rows)[w]
    {
      verdict := Judge(rows, node, reports, now);
      if verdict != Accepted { return; }
      for i := 0 to |reports|
        invariant nodes == old(nodes) && volumes == old(volumes) && stopCommands == old(stopCommands)
                  && rows.Keys == old(rows).Keys
        invariant forall j :: 0 <= j < i ==>
                  rows[reports[j].workload] == Apply(old(rows)[reports[j].workload], reports[j])
        invariant forall w :: w in old(rows) && (forall j :: 0 <= j < i ==> reports[j].workload != w) ==>
                  rows[w] == old(rows)[w]
      {
        var r := reports[i];
        assert r in reports && rows[r.workload] == old(rows)[r.workload];
        if Writable(rows, node, r) {
          rows := rows[r.workload := Apply(rows[r.workload], r)];
        }
      }
    }
  }

  lemma NothingLost(volumes: Volumes, rows: ObservedRows, persistent: set<WorkloadId>)
    ensures VolumesAfter(volumes, {}) == volumes && RowsAfter(rows, {}, persistent) == rows
              && ToStop(rows, {}, persistent) == {}
  {
  }

  /** Nodes are lost one at a time: each touches only what is placed on it. */
  lemma OneMoreNode(volumes: Volumes, rows: ObservedRows, done: set<NodeId>, node: NodeId, persistent: set<WorkloadId>)
    requires node !in done
    ensures VolumesAfter(VolumesAfter(volumes, done), {node}) == VolumesAfter(volumes, done + {node})
    ensures RowsAfter(RowsAfter(rows, done, persistent), {node}, persistent)
              == RowsAfter(rows, done + {node}, persistent)
    ensures ToStop(rows, done, persistent) + ToStop(RowsAfter(rows, done, persistent), {node}, persistent)
              == ToStop(rows, done + {node}, persistent)
  {
  }

  // ---------------------------------------------------------------------------------------------------------------
  // What a tick means.

  /** A node goes offline exactly when it was in service or unhealthy and has been silent for more than 90 seconds. */
  lemma OfflineIffSilent(nodes: Nodes, now: int, n: NodeId)
    requires n in nodes
    ensures n in Stale(nodes, now) <==>
              && (nodes[n].status == Scheduler.Ready || nodes[n].status == Scheduler.Draining
                  || nodes[n].status == Scheduler.Unhealthy)
              && SilentFor(nodes[n], now, NODE_OFFLINE_AFTER_MS)
    ensures NodesAfter(nodes, now)[n].status == Scheduler.Offline <==>
              nodes[n].status == Scheduler.Offline || n in Stale(nodes, now)
    ensures NodesAfter(nodes, now)[n].status == Scheduler.Ready ==>
              nodes[n].status == Scheduler.Ready && !SilentFor(nodes[n], now, NODE_UNHEALTHY_AFTER_MS)
    ensures NodesAfter(nodes, now)[n].lastHeartbeatAt == nodes[n].lastHeartbeatAt
  {
  }

  /**
   * The columns of a node after a tick: in service it turns unhealthy after 45 s of silence; in service or unhealthy
   * it is taken offline after 90 s.
   */
  lemma SilenceTurns(nodes: Nodes, now: int)
    ensures NodesAfter(nodes, now).Keys == nodes.Keys && Stale(nodes, now) <= nodes.Keys
    ensures forall n :: n in nodes ==>
              var before, after := nodes[n], NodesAfter(nodes, now)[n];
              var silence := if before.lastHeartbeatAt.Some? then now - before.lastHeartbeatAt.value else 0;
              var inService := before.status == Scheduler.Ready || before.status == Scheduler.Draining;
              && (n in Stale(nodes, now) <==> silence > 90_000 && (inService || before.status == Scheduler.Unhealthy))
              && after == before.(
                   status := if n in Stale(nodes, now) then Scheduler.Offline
                             else if inService && silence > 45_000 then Scheduler.Unhealthy else before.status,
                   unhealthyAt := if inService && silence > 45_000 then Some(now) else before.unhealthyAt,
                   offlineAt := if n in Stale(nodes, now) then Some(now) else before.offlineAt)
  {
  }

  /**
   * The columns a tick writes elsewhere: what is wanted on a node taken offline is lost, its health unknown, and
   * without volumes it is retired and its agent told to stop it. The node's usable volumes become unavailable.
   */
  lemma TickWrites(nodes: Nodes, volumes: Volumes, rows: ObservedRows, persistent: set<WorkloadId>, now: int)
    ensures var after := RowsAfter(rows, Stale(nodes, now), persistent);
            after.Keys == rows.Keys && forall w :: w in rows ==>
              if rows[w].row.node in Stale(nodes, now) && rows[w].row.desired == Desired.Running
              then
                && after[w].row.actual == Actual.Lost && after[w].row.health == Health.Unknown
                && after[w].row.desired == (if w in persistent then Desired.Running else Desired.Stopped)
                && after[w].row.node == rows[w].row.node && after[w].row.failures == rows[w].row.failures
                && after[w].generation == rows[w].generation && after[w].healthCheckedAt == rows[w].healthCheckedAt
                && (w in ToStop(rows, Stale(nodes, now), persistent) <==> w !in persistent)
              else after[w] == rows[w] && w !in ToStop(rows, Stale(nodes, now), persistent)
    ensures ToStop(rows, Stale(nodes, now), persistent) <= rows.Keys
    ensures var after := VolumesAfter(volumes, Stale(nodes, now));
            after.Keys == volumes.Keys && forall v :: v in volumes ==>
              var wasUsable := volumes[v].status == Reconciler.Available || volumes[v].status == Reconciler.InUse;
              after[v] == volumes[v].(status :=
                if volumes[v].node.Some? && volumes[v].node.value in Stale(nodes, now) && wasUsable
                then Reconciler.Unavailable else volumes[v].status)
  {
    hide Stale;
  }

  /** A second tick with the same clock finds nothing to do. */
  lemma TickIsIdempotent(nodes: Nodes, now: int)
    ensures NodesAfter(NodesAfter(nodes, now), now) == NodesAfter(nodes, now)
              && Stale(NodesAfter(nodes, now), now) == {}
  {
  }

  /**
   * After the loss, whatever is still wanted on a lost node is marked lost and belongs to a deployment with volumes,
   * no volume of the node is usable, and nothing elsewhere changed.
   */
  lemma LossIsContained(volumes: Volumes, rows: ObservedRows, stale: set<NodeId>, persistent: set<WorkloadId>)
    ensures var after := RowsAfter(rows, stale, persistent);
            forall w :: w in rows ==>
              if rows[w].row.node in stale
              then after[w].row.desired == Desired.Running ==> w in persistent && after[w].row.actual == Actual.Lost
              else after[w] == rows[w]
    ensures forall v :: v in volumes ==>
              if volumes[v].node.Some? && volumes[v].node.value in stale
              then VolumesAfter(volumes, stale)[v].status != Reconciler.Available
                  && VolumesAfter(volumes, stale)[v].status != Reconciler.InUse
                   && VolumesAfter(volumes, stale)[v].node == volumes[v].node
              else VolumesAfter(volumes, stale)[v] == volumes[v]
  {
  }

  // ---------------------------------------------------------------------------------------------------------------
  // Statements of ticks, heartbeats, telemetry and other writers, interleaved.

  /**
   * `losing` are the nodes a tick has taken offline and not yet handled; `written` lists the reports that were
   * applied.
   */
  datatype Watch = Watch(nodes: Nodes, volumes: Volumes, rows: ObservedRows, losing: set<NodeId>, written: seq<Report>)

  datatype Event =
    | MarkedUnhealthy(now: int) | MarkedOffline(now: int) | LostNode(node: NodeId, persistent: set<WorkloadId>)
    | Beat(node: NodeId, status: Scheduler.NodeStatus, now: int)
    | Write(node: NodeId, report: Report)
    | Placed(w: WorkloadId, node: NodeId)
    | Outcome(w: WorkloadId, actual: Actual) | Retired(w: WorkloadId, desired: Desired)

  predicate Allowed(s: Watch, event: Event) {
    match event
    case MarkedUnhealthy(_) => true
    case MarkedOffline(_) => true
    case LostNode(node, _) => node in s.losing
    case Beat(node, status, _) => node in s.nodes && Reportable(status)
    case Write(node, r) => Writable(s.rows, node, r) && r.health != Health.Unknown
    case Placed(w, _) => w !in s.rows
    case Outcome(w, _) => w in s.rows
    case Retired(w, desired) => w in s.rows && desired != Desired.Running
  }

  function After(s: Watch, event: Event): Watch
    requires Allowed(s, event)
  {
    match event
    case MarkedUnhealthy(now) => s.(nodes := MarkUnhealthy(s.nodes, now))
    case MarkedOffline(now) => s.(nodes := MarkOffline(s.nodes, now), losing := s.losing + Offline(s.nodes, now))
    case LostNode(node, persistent) =>
      s.(volumes := VolumesAfter(s.volumes, {node}), rows := RowsAfter(s.rows, {node}, persistent),
          losing := s.losing - {node})
    case Beat(node, status, now) =>
      s.(nodes := s.nodes[node := Beaten(s.nodes[node], status, now)],
         volumes := if status == Scheduler.Ready then VolumesBack(s.volumes, node) else s.volumes)
    case Write(_, r) => s.(rows := s.rows[r.workload := Apply(s.rows[r.workload], r)], written := s.written + [r])
    case Placed(w, node) => s.(rows :=
        s.rows[w := Observed(Workload(node, Desired.Running, Actual.Pending, Health.NoCheck, 0), 1, None)])
    case Outcome(w, actual) => s.(rows := s.rows[w := s.rows[w].(row := s.rows[w].row.(actual := actual))])
    case Retired(w, desired) => s.(rows := s.rows[w := s.rows[w].(row := s.rows[w].row.(desired := desired))])
  }

  predicate Run(states: seq<Watch>, events: seq<Event>) {
    && |states| == |events| + 1
    && states[0].rows == map[] && states[0].losing == {} && states[0].written == []
    && forall i :: 0 <= i < |events| ==> Allowed(states[i], events[i]) && states[i + 1] == After(states[i], events[i])
  }

  /** The reports on one workload, in the order they were applied. */
  function About(written: seq<Report>, w: WorkloadId): (r: seq<Report>)
    ensures forall i :: 0 <= i < |r| ==> r[i].workload == w
  {
    if written == [] then []
    else About(written[..|written| - 1], w) + if written[|written| - 1].workload == w then [written[|written| - 1]]
        else []
  }

  /** How many of the last reports were unhealthy. */
  function UnhealthyStreak(reports: seq<Report>): nat {
    if reports == [] || reports[|reports| - 1].health != Health.Unhealthy then 0
        else 1 + UnhealthyStreak(reports[..|reports| - 1])
  }

  predicate Rising(reports: seq<Report>) {
    forall i, j :: 0 <= i < j < |reports| ==> reports[i].observedAt < reports[j].observedAt
  }

  /** A row remembers its reports: the streak of unhealthy ones and the time of the last. */
  ghost predicate Remembers(o: Observed, reports: seq<Report>) {
    && o.row.failures == UnhealthyStreak(reports)
    && CountedUnhealthy(o.row)
    && o.healthCheckedAt == (if reports == [] then None else Some(reports[|reports| - 1].observedAt))
    && Rising(reports)
  }

  ghost predicate Inv(s: Watch) {
    && (forall w :: w in s.rows ==> Remembers(s.rows[w], About(s.written, w)))
    && forall w :: w !in s.rows ==> About(s.written, w) == []
  }

  lemma AboutSnoc(written: seq<Report>, r: Report, w: WorkloadId)
    ensures About(written + [r], w) == About(written, w) + if r.workload == w then [r] else []
  {
    assert (written + [r])[..|written|] == written;
  }

  lemma ApplyRemembers(o: Observed, reports: seq<Report>, r: Report)
    requires Remembers(o, reports) && Newer(r, o)
    ensures Remembers(Apply(o, r), reports + [r])
  {
    assert (reports + [r])[..|reports|] == reports;
  }

  lemma WriteKeepsInv(s: Watch, event: Event)
    requires Inv(s) && event.Write? && Allowed(s, event)
    ensures Inv(After(s, event))
  {
    hide Remembers, About, Apply;
    var r, s' := event.report, After(s, event);
    forall w ensures About(s'.written, w) == About(s.written, w) + (if r.workload == w then [r] else []) {
      AboutSnoc(s.written, r, w);
    }
    assert forall w :: About(s.written, w) + [] == About(s.written, w);
    ApplyRemembers(s.rows[r.workload], About(s.written, r.workload), r);
  }

  lemma StepKeepsInv(s: Watch, event: Event)
    requires Inv(s) && Allowed(s, event)
    ensures Inv(After(s, event)) && s.written <= After(s, event).written
  {
    if event.Write? {
      WriteKeepsInv(s, event);
    } else {
      hide About, Remembers, VolumesAfter, MarkOffline, MarkUnhealthy, Offline, VolumesBack;
      var s' := After(s, event);
      forall w | w in s'.rows ensures Remembers(s'.rows[w], About(s'.written, w)) {
        if w in s.rows {
          StillRemembers(s.rows[w], s'.rows[w], About(s.written, w));
        } else {
          NewRemembers(s'.rows[w]);
        }
      }
    }
  }

  lemma StillRemembers(o: Observed, o': Observed, reports: seq<Report>)
    requires Remembers(o, reports) && o'.healthCheckedAt == o.healthCheckedAt && o'.row.failures == o.row.failures
              && (o'.row.health == o.row.health || o'.row.health == Health.Unknown)
    ensures Remembers(o', reports)
  {
  }

  lemma NewRemembers(o: Observed)
    ensures o.row.failures == 0 && o.healthCheckedAt == None ==> Remembers(o, [])
  {
    EmptyStreak();
  }

  lemma EmptyStreak()
    ensures UnhealthyStreak([]) == 0
  {
  }

  lemma {:induction false} RunKeepsInv(states: seq<Watch>, events: seq<Event>, i: nat)
    requires Run(states, events) && i < |states|
    ensures Inv(states[i])
  {
    hide After, Allowed;
    if i > 0 {
      RunKeepsInv(states, events, i - 1);
      StepKeepsInv(states[i - 1], events[i - 1]);
    } else {
      assert forall w :: About([], w) == [];
    }
  }

  /**
   * In every run, whatever is lost, placed or retired in between: the failure counter of a workload is the number of
   * its latest reports that were unhealthy in a row, and its reports were applied in the order they were observed.
   */
  lemma FailuresCountTheStreak(states: seq<Watch>, events: seq<Event>, i: nat, w: WorkloadId)
    requires Run(states, events) && i < |states| && w in states[i].rows
    ensures states[i].rows[w].row.failures == UnhealthyStreak(About(states[i].written, w))
    ensures CountedUnhealthy(states[i].rows[w].row)
    ensures Rising(About(states[i].written, w))
  {
    hide Run, UnhealthyStreak, About, Rising;
    RunKeepsInv(states, events, i);
  }

  /** Once a report has been applied, no batch that holds it or an older one on its workload is accepted, ever. */
  lemma AppliedReportsStayRefused(states: seq<Watch>, events: seq<Event>, i: nat, r: Report, node: NodeId,
                                  batch: seq<Report>, now: int, again: Report)
    requires Run(states, events) && i < |states| && r in states[i].written
    requires again in batch && again.workload == r.workload && again.observedAt <= r.observedAt
    ensures Judge(states[i].rows, node, batch, now) != Accepted && !Writable(states[i].rows, node, again)
  {
    hide Run, Rising;
    RunKeepsInv(states, events, i);
    var reports := About(states[i].written, r.workload);
    AppliedIsAbout(states[i].written, r);
    if r.workload in states[i].rows {
      LastIsLatest(states[i].rows[r.workload], reports, r);
    }
    hide About, Remembers;
    OutdatedIsRefused(states[i].rows, node, batch, now, again);
  }

  lemma OutdatedIsRefused(rows: ObservedRows, node: NodeId, batch: seq<Report>, now: int, again: Report)
    requires again in batch && (again.workload in rows ==> !Newer(again, rows[again.workload]))
    ensures Judge(rows, node, batch, now) != Accepted && !Writable(rows, node, again)
  {
  }

  lemma {:induction false} AppliedIsAbout(written: seq<Report>, r: Report)
    requires r in written
    ensures r in About(written, r.workload)
  {
    if r != written[|written| - 1] {
      AppliedIsAbout(written[..|written| - 1], r);
    }
  }

  lemma LastIsLatest(o: Observed, reports: seq<Report>, r: Report)
    requires Remembers(o, reports) && r in reports
    ensures o.healthCheckedAt.Some? && o.healthCheckedAt.value >= r.observedAt
  {
    hide UnhealthyStreak;
    var k :| 0 <= k < |reports| && reports[k] == r;
  }

  /** No tick that reads its clock within 45 s of the node's last heartbeat turned the node. */
  ghost predicate InTouch(events: seq<Event>, i: nat, j: nat, node: NodeId, beatAt: int) {
    forall k :: i <= k < j && k < |events| ==>
      match events[k]
      case Beat(n, _, _) => n != node
      case MarkedUnhealthy(now) => now <= beatAt + NODE_UNHEALTHY_AFTER_MS
      case MarkedOffline(now) => now <= beatAt + NODE_UNHEALTHY_AFTER_MS
      case _ => true
  }

  /**
   * A heartbeat that reports ready keeps the node ready and out of any tick's hands for 45 seconds, even from a tick
   * that began before it: the tick's statements look at the heartbeat again.
   */
  lemma {:induction false} HeartbeatProtects(states: seq<Watch>, events: seq<Event>, i: nat, j: nat, node: NodeId,
                                             beatAt: int)
    requires Run(states, events) && i < j < |states| && events[i] == Beat(node, Scheduler.Ready, beatAt)
              && node !in states[i].losing
    requires InTouch(events, i + 1, j, node, beatAt)
    ensures node in states[j].nodes && states[j].nodes[node].status == Scheduler.Ready
              && states[j].nodes[node].lastHeartbeatAt == Some(beatAt)
    ensures node !in states[j].losing
  {
    if j > i + 1 {
      HeartbeatProtects(states, events, i, j - 1, node, beatAt);
      hide VolumesAfter, RowsAfter, VolumesBack, Apply, Writable;
      assert states[j - 1 + 1] == After(states[j - 1], events[j - 1]);
      assert i + 1 <= j - 1 < j;
    }
  }
}
