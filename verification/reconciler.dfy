/**
 * The deployment reconciler as a protocol: the rows of one deployment, any number of passes working on them statement
 * by statement, and everything else that writes those rows as steps of the environment.
 */
module Reconciler {
  import opened Wrappers
  import opened Lifecycle
  import Ports
  import Scheduler

  type Time = int

  datatype VolumeId = VolumeId(id: int)

  /** A pass and its lease id. */
  datatype PassId = PassId(id: int)

  const LEASE_MS := 60_000
  const HEALTH_FAILURE_THRESHOLD := 3
  const MAX_RECOVERY_ATTEMPTS := 5
  const RECOVERY_BACKOFF_BASE_MS := 30_000
  const RECOVERY_BACKOFF_MAX_MS := 600_000

  datatype Recovery = Idle | Backoff | ManualIntervention

  datatype Lease = Lease(holder: PassId, until: Time)

  /** `mounts` has one entry for each configured volume, with its id when the volume is a managed one. */
  datatype Deployment = Deployment(
    desired: Desired, replicas: nat, mounts: seq<Option<VolumeId>>, ports: seq<Ports.PortSpec>,
        requirements: Scheduler.Requirements,
    attempts: nat, nextAttemptAt: Option<Time>, recovery: Recovery, lease: Option<Lease>)

  datatype VolumeStatus = Available | InUse | Unavailable | Error | Deleting | Legacy

  datatype Volume = Volume(node: Option<NodeId>, status: VolumeStatus)

  /** Where a pass stands: before the statement each name describes. */
  datatype Pc =
    | Begun | Claimed | HasRow | CheckingVolumes | SavingNode | Deciding | Retiring(targets: set<WorkloadId>,
        kind: Desired)
    | Resetting | LoopTop | ChoosingNode | ClaimingVolumes | ReadingClaims | SavingRetry | SavingPin | Placing | Done

  /** A pass: the rows it read and its local variables. `created` and `retries` only record what it did. */
  datatype Pass = Pass(
    stamp: Time, pc: Pc, row: Deployment, rows: Rows, requirements: Scheduler.Requirements,
    missing: nat, index: nat, checkedAt: Time, target: NodeId, created: set<WorkloadId>, retries: nat)

  /** A recovery placement, kept for the properties: its number, its time and the pass that made it. */
  datatype Placement = Placement(number: nat, stamp: Time, pass: PassId)

  /**
   * `used` holds the ids of all passes so far: ids are never reused. `log` lists the recovery placements since the
   * counter was last reset and `escalatedAt` is the time of the escalation.
   */
  datatype State = State(
    clock: Time, row: Deployment, rows: Rows, volumes: map<VolumeId, Volume>,
    passes: map<PassId, Pass>, used: set<PassId>, log: seq<Placement>, escalatedAt: Option<Time>)

  // ---------------------------------------------------------------------------------------------------------------
  // What a pass computes from the rows it read.

  predicate Persistent(row: Deployment) { row.mounts != [] }

  function ManagedOf(mounts: seq<Option<VolumeId>>): seq<VolumeId> {
    if mounts == [] then []
    else (match mounts[0] case Some(v) => [v] case None => []) + ManagedOf(mounts[1..])
  }

  function Managed(row: Deployment): seq<VolumeId> { ManagedOf(row.mounts) }

  /** The nodes the managed volumes are bound to. */
  function BoundNodes(row: Deployment, volumes: map<VolumeId, Volume>): (r: set<NodeId>) {
    set v | v in Managed(row) && v in volumes && volumes[v].node.Some? :: volumes[v].node.value
  }

  predicate VolumesUsable(row: Deployment, volumes: map<VolumeId, Volume>) {
    && |set v | v in Managed(row) && v in volumes| == |Managed(row)|
    && forall v :: v in Managed(row) && v in volumes ==> volumes[v].status == Available || volumes[v].status == InUse
  }

  predicate Broken(workload: Workload) {
    workload.actual == Actual.Failed || workload.failures >= HEALTH_FAILURE_THRESHOLD
  }

  function UnhealthyIds(rows: Rows): set<WorkloadId> {
    set w | w in rows && rows[w].desired == Desired.Running && Broken(rows[w])
  }

  /** A lost stateless workload is not counted: it must be replaced. */
  function ActiveIds(rows: Rows, persistent: bool): set<WorkloadId> {
    set w | w in rows && rows[w].desired == Desired.Running && (persistent || rows[w].actual != Actual.Lost)
  }

  function Missing(row: Deployment, rows: Rows): nat {
    var active := |ActiveIds(rows, Persistent(row))|;
    if active < row.replicas then row.replicas - active else 0
  }

  /** The next workload will replace one that was lost or broke, whether or not that one is still wanted. */
  predicate HasReplacement(rows: Rows) {
    exists w :: w in rows && (rows[w].actual == Actual.Lost || Broken(rows[w]))
  }

  function RecoveryAttempt(pass: Pass): nat {
    if HasReplacement(pass.rows) then pass.row.attempts + 1 else pass.row.attempts
  }

  function Pow2(n: nat): (r: nat)
    ensures r >= 1
  {
    if n == 0 then 1 else 2 * Pow2(n - 1)
  }

  function BackoffMs(attempt: nat): int {
    var wanted := RECOVERY_BACKOFF_BASE_MS * Pow2(if attempt == 0 then 0 else attempt - 1);
    if wanted < RECOVERY_BACKOFF_MAX_MS then wanted else RECOVERY_BACKOFF_MAX_MS
  }

  /** The volumes after a claim: those without a node are bound to `node` and put in use. */
  function Bind(volumes: map<VolumeId, Volume>, ids: seq<VolumeId>, node: NodeId): map<VolumeId, Volume> {
    map v | v in volumes :: if v in ids && volumes[v].node.None? then Volume(Some(node), InUse) else volumes[v]
  }

  predicate FixedPortsRefused(row: Deployment) { Ports.FixedHostPorts(row.ports) != [] && row.replicas > 1 }

  function WithFixedPorts(row: Deployment, requirements: Scheduler.Requirements): Scheduler.Requirements {
    if Ports.FixedHostPorts(row.ports) != []
        then requirements.(requestedHostPorts := Ports.FixedHostPorts(row.ports)) else requirements
  }

  function Pinned(requirements: Scheduler.Requirements, node: NodeId): Scheduler.Requirements {
    requirements.(requiredNode := Some(node))
  }

  // ---------------------------------------------------------------------------------------------------------------
  // The statements of a pass.

  datatype Move =
    | Claim | ReadRow | ReadWorkloads | CheckVolumes | Save | Decide | Retire(w: WorkloadId) | Reset
    | CheckRecovery | Schedule(nodes: set<Scheduler.Node>, decision: Option<NodeId>) | ClaimVolumes | ReadClaims
    | Place(w: WorkloadId, at: Time) | Escalate | GiveUp | Release | Crash

  ghost predicate MoveAllowed(s: State, id: PassId, pass: Pass, move: Move) {
    match move
    case Claim => pass.pc == Begun
    case ReadRow => pass.pc == Claimed
    case ReadWorkloads => pass.pc == HasRow
    case CheckVolumes => pass.pc == CheckingVolumes
    case Save => (pass.pc.SavingNode? || pass.pc.SavingRetry? || pass.pc.SavingPin?)
    case Decide => pass.pc == Deciding
    case Retire(w) => pass.pc.Retiring? && w in pass.pc.targets && w in s.rows
    case Reset => pass.pc == Resetting
    case CheckRecovery => pass.pc == LoopTop
    case Schedule(nodes, decision) => pass.pc == ChoosingNode && Scheduler.Decides(nodes, pass.requirements, decision)
    case ClaimVolumes => pass.pc == ClaimingVolumes
    case ReadClaims => pass.pc == ReadingClaims
    case Place(w, at) => && pass.pc == Placing && RecoveryAttempt(pass) <= MAX_RECOVERY_ATTEMPTS
                         && w !in s.rows && pass.checkedAt <= at <= s.clock
    case Escalate => pass.pc == Placing && RecoveryAttempt(pass) > MAX_RECOVERY_ATTEMPTS
    case GiveUp => pass.pc != Begun
    case Release => pass.pc == Done
    case Crash => true
  }

  function Put(s: State, id: PassId, pass: Pass): State { s.(passes := s.passes[id := pass]) }

  function Drop(s: State, id: PassId): State { s.(passes := s.passes - {id}) }

  function LeaseFree(row: Deployment, now: Time): bool { row.lease.None? || row.lease.value.until < now }

  function AfterClaim(s: State, id: PassId, pass: Pass): State {
    if LeaseFree(s.row, pass.stamp) then
      Put(s.(row := s.row.(lease := Some(Lease(id, pass.stamp + LEASE_MS)))), id, pass.(pc := Claimed))
    else Drop(s, id)
  }

  /** The stored requirements carry no host ports: reading them strips what the schema does not name. */
  function AfterReadRow(s: State, pass: Pass): Pass {
    pass.(pc := HasRow, row := s.row, requirements := s.row.requirements.(requestedHostPorts := []))
  }

  function AfterReadWorkloads(s: State, pass: Pass): Pass {
    var kind := if pass.row.desired == Desired.Deleted then Desired.Deleted else Desired.Stopped;
    var read := pass.(rows := s.rows);
    if pass.row.desired != Desired.Running
        then read.(pc := Retiring((set w | w in s.rows && s.rows[w].desired != kind), kind))
    else if FixedPortsRefused(pass.row) then read.(pc := Done)
    else read.(requirements := WithFixedPorts(pass.row, pass.requirements), pc := if Managed(pass.row) != []
        then CheckingVolumes else Deciding)
  }

  function AfterCheckVolumes(s: State, pass: Pass): Pass {
    var nodes := BoundNodes(pass.row, s.volumes);
    if !VolumesUsable(pass.row, s.volumes) || |nodes| > 1 then pass.(pc := Done)
    else if nodes == {} then pass.(pc := Deciding)
    else pass.(pc := SavingNode, requirements := Pinned(pass.requirements, Only(nodes)))
  }

  function Only(nodes: set<NodeId>): (n: NodeId)
    requires nodes != {}
    ensures n in nodes
    ensures |nodes| == 1 ==> nodes == {n}
  {
    SmallestExists(nodes);
    var n :| n in nodes && forall m :: m in nodes ==> n.rank <= m.rank;
    assert |nodes - {n}| == |nodes| - 1;
    assert |nodes| == 1 ==> nodes == {n} + (nodes - {n}) && nodes - {n} == {};
    n
  }

  lemma SmallestExists(nodes: set<NodeId>)
    requires nodes != {}
    ensures exists n :: n in nodes && forall m :: m in nodes ==> n.rank <= m.rank
  {
    var k :| k in nodes;
    if nodes != {k} {
      SmallestExists(nodes - {k});
      var n :| n in nodes - {k} && forall m :: m in nodes - {k} ==> n.rank <= m.rank;
      assert forall m :: m in nodes ==> m == k || m in nodes - {k};
      assert if k.rank <= n.rank then forall m :: m in nodes ==> k.rank <= m.rank else forall m :: m in nodes ==>
          n.rank <= m.rank;
    }
  }

  function AfterDecide(pass: Pass): Pass {
    var persistent := Persistent(pass.row);
    var active := ActiveIds(pass.rows, persistent);
    if !persistent && UnhealthyIds(pass.rows) != {} then pass.(pc := Retiring(UnhealthyIds(pass.rows), Desired.Stopped))
    else if Missing(pass.row, pass.rows) == 0 then
      pass.(pc := if pass.row.recovery != Idle && forall w :: w in active ==>
          Serving(pass.rows[w]) then Resetting else Done)
    else pass.(pc := LoopTop, missing := Missing(pass.row, pass.rows), index := 0)
  }

  function AfterCheckRecovery(s: State, pass: Pass): Pass {
    if pass.index >= pass.missing then pass.(pc := Done)
    else if pass.row.recovery == ManualIntervention then pass.(pc := Done)
    else if pass.row.nextAttemptAt.Some? && pass.row.nextAttemptAt.value > s.clock then pass.(pc := Done)
    else pass.(pc := ChoosingNode, checkedAt := s.clock)
  }

  function AfterSchedule(pass: Pass, decision: Option<NodeId>): Pass {
    match decision
    case None => pass.(pc := Done)
    case Some(node) => pass.(target := node, pc := if Managed(pass.row) != [] then ClaimingVolumes else Placing)
  }

  function AfterReadClaims(s: State, pass: Pass): Pass {
    var nodes := BoundNodes(pass.row, s.volumes);
    if |nodes| != 1 then pass.(pc := Done)
    else if Only(nodes) != pass.target then
      pass.(pc := SavingRetry, requirements := Pinned(pass.requirements, Only(nodes)), retries := pass.retries + 1)
    else pass.(pc := SavingPin, requirements := Pinned(pass.requirements, pass.target))
  }

  function AfterSave(s: State, id: PassId, pass: Pass): State {
    var next := match pass.pc case SavingNode => Deciding case SavingRetry => LoopTop case _ => Placing;
    Put(s.(row := s.row.(requirements := pass.requirements)), id, pass.(pc := next))
  }

  /** The requirements of the placement: the first one of a persistent deployment pins the node. */
  function PlacedRequirements(pass: Pass): Scheduler.Requirements {
    if Persistent(pass.row) && pass.requirements.requiredNode.None? then Pinned(pass.requirements, pass.target)
        else pass.requirements
  }

  function RowAfterPlace(s: State, pass: Pass, at: Time): Deployment {
    var pinned := if PlacedRequirements(pass) != pass.requirements
        then s.row.(requirements := PlacedRequirements(pass)) else s.row;
    if HasReplacement(pass.rows) then
      var attempt := RecoveryAttempt(pass);
      pinned.(attempts := attempt, recovery := Backoff, nextAttemptAt := Some(at + BackoffMs(attempt)))
    else pinned
  }

  function NewWorkload(node: NodeId): Workload {
    Workload(node, Desired.Running, Actual.Pending, Health.NoCheck, 0)
  }

  function AfterPlace(s: State, id: PassId, pass: Pass, w: WorkloadId, at: Time): State {
    var placed := pass.(pc := LoopTop, requirements := PlacedRequirements(pass), index := pass.index + 1,
        created := pass.created + {w});
    var log := if HasReplacement(pass.rows) then s.log + [Placement(RecoveryAttempt(pass), at, id)] else s.log;
    Put(s.(row := RowAfterPlace(s, pass, at), rows := s.rows[w := NewWorkload(pass.target)], log := log), id, placed)
  }

  function AfterRelease(s: State, id: PassId): State {
    var free := if s.row.lease.Some? && s.row.lease.value.holder == id then s.row.(lease := None) else s.row;
    Drop(s.(row := free), id)
  }

  function AfterRetire(s: State, id: PassId, pass: Pass, w: WorkloadId): State
    requires pass.pc.Retiring? && w in s.rows
  {
    Put(s.(rows := s.rows[w := s.rows[w].(desired := pass.pc.kind)]), id,
        pass.(pc := Retiring(pass.pc.targets - {w}, pass.pc.kind)))
  }

  ghost function AfterMove(s: State, id: PassId, pass: Pass, move: Move): State
    requires MoveAllowed(s, id, pass, move)
  {
    match move
    case Claim => AfterClaim(s, id, pass)
    case ReadRow => Put(s, id, AfterReadRow(s, pass))
    case ReadWorkloads => Put(s, id, AfterReadWorkloads(s, pass))
    case CheckVolumes => Put(s, id, AfterCheckVolumes(s, pass))
    case Save => AfterSave(s, id, pass)
    case Decide => Put(s, id, AfterDecide(pass))
    case Retire(w) => AfterRetire(s, id, pass, w)
    case Reset => Put(s.(row := s.row.(attempts := 0, nextAttemptAt := None, recovery := Idle), log := []), id,
        pass.(pc := Done))
    case CheckRecovery => Put(s, id, AfterCheckRecovery(s, pass))
    case Schedule(nodes, decision) => Put(s, id, AfterSchedule(pass, decision))
    case ClaimVolumes => Put(s.(volumes := Bind(s.volumes, Managed(pass.row), pass.target)), id,
        pass.(pc := ReadingClaims))
    case ReadClaims => Put(s, id, AfterReadClaims(s, pass))
    case Place(w, at) => AfterPlace(s, id, pass, w, at)
    case Escalate => Put(s.(row := s.row.(recovery := ManualIntervention), escalatedAt := Some(s.clock)), id,
        pass.(pc := Done))
    case GiveUp => Put(s, id, pass.(pc := Done))
    case Release => AfterRelease(s, id)
    case Crash => Drop(s, id)
  }

  // ---------------------------------------------------------------------------------------------------------------
  // The environment: other controllers, the API, agents, other deployments' passes, and time.

  datatype Change =
    | Begin(id: PassId)
    | Tick(to: Time)
    | SetDesired(desired: Desired)
    | RetireAny(w: WorkloadId, kind: Desired)
    | LoseNode(node: NodeId, lost: set<WorkloadId>)
    | Report(w: WorkloadId, actual: Actual, health: Health)
    | Outcome(w: WorkloadId, actual: Actual)
    | CreateVolume(v: VolumeId)
    | SetVolumeStatus(v: VolumeId, status: VolumeStatus)
    | DeleteVolume(v: VolumeId)
    | BindElsewhere(ids: seq<VolumeId>, node: NodeId)

  ghost predicate ChangeAllowed(s: State, change: Change) {
    match change
    case Begin(id) => id !in s.used && id !in s.passes
    case Tick(to) => to >= s.clock
    case SetDesired(_) => true
    case RetireAny(w, kind) => w in s.rows && kind != Desired.Running
    case LoseNode(node, lost) => forall w :: w in lost ==> w in s.rows && s.rows[w].node == node
    case Report(w, actual, health) => w in s.rows
        && actual in {Actual.Running, Actual.Stopped, Actual.Failed, Actual.Unknown} && health != Health.Unknown
    case Outcome(w, actual) => w in s.rows && actual in {Actual.Running, Actual.Stopped, Actual.Failed, Actual.Unknown}
    // A fresh id, so none the deployment mounts.
    case CreateVolume(v) => v !in s.volumes && v !in Managed(s.row)
    case SetVolumeStatus(v, _) => v in s.volumes
    case DeleteVolume(v) => v in s.volumes
    case BindElsewhere(_, _) => true
  }

  ghost function AfterChange(s: State, change: Change): State
    requires ChangeAllowed(s, change)
  {
    match change
    case Begin(id) =>
      var pass := Pass(s.clock, Begun, s.row, map[], s.row.requirements, 0, 0, s.clock, Scheduler.NodeId(0), {}, 0);
      Put(s.(used := s.used + {id}), id, pass)
    case Tick(to) => s.(clock := to)
    case SetDesired(desired) => s.(row := s.row.(desired := desired))
    case RetireAny(w, kind) => s.(rows := s.rows[w := s.rows[w].(desired := kind)])
    case LoseNode(node, lost) =>
      s.(rows := map w | w in s.rows :: if w in lost then LostWithNode(s.rows[w], Persistent(s.row)) else s.rows[w])
    case Report(w, actual, health) => s.(rows := s.rows[w := Reported(s.rows[w], actual, health)])
    case Outcome(w, actual) => s.(rows := s.rows[w := s.rows[w].(actual := actual)])
    case CreateVolume(v) => s.(volumes := s.volumes[v := Volume(None, Available)])
    case SetVolumeStatus(v, status) => s.(volumes := s.volumes[v := s.volumes[v].(status := status)])
    case DeleteVolume(v) => s.(volumes := s.volumes - {v})
    case BindElsewhere(ids, node) => s.(volumes := Bind(s.volumes, ids, node))
  }

  // ---------------------------------------------------------------------------------------------------------------
  // Runs.

  datatype Event = ByPass(id: PassId, move: Move) | Outside(change: Change)

  ghost predicate Allowed(s: State, event: Event) {
    match event
    case ByPass(id, move) => id in s.passes && MoveAllowed(s, id, s.passes[id], move)
    case Outside(change) => ChangeAllowed(s, change)
  }

  ghost function After(s: State, event: Event): State
    requires Allowed(s, event)
  {
    match event
    case ByPass(id, move) => AfterMove(s, id, s.passes[id], move)
    case Outside(change) => AfterChange(s, change)
  }

  /** A new deployment: no workloads, no passes, nothing recovered yet. */
  ghost predicate Initial(s: State) {
    && s.rows == map[] && s.passes == map[] && s.used == {} && s.log == [] && s.escalatedAt == None
    && s.row.attempts == 0 && s.row.nextAttemptAt == None && s.row.recovery == Idle && s.row.lease == None
  }

  /** A run: each state follows from the one before by the event between them. */
  ghost predicate Run(states: seq<State>, events: seq<Event>) {
    && |states| == |events| + 1
    && Initial(states[0])
    && forall i :: 0 <= i < |events| ==> Allowed(states[i], events[i]) && states[i + 1] == After(states[i], events[i])
  }

  /** A move touches no other pass. */
  lemma MoveKeepsOthers(s: State, id: PassId, pass: Pass, move: Move, other: PassId)
    requires MoveAllowed(s, id, pass, move) && other != id
    ensures other in AfterMove(s, id, pass, move).passes <==> other in s.passes
    ensures other in s.passes ==> AfterMove(s, id, pass, move).passes[other] == s.passes[other]
  {
    hide BoundNodes, VolumesUsable, UnhealthyIds, ActiveIds, Missing, HasReplacement, BackoffMs, Scheduler.Decides;
    hide Bind;
    hide AfterReadRow, AfterReadWorkloads, AfterCheckVolumes, AfterDecide, AfterCheckRecovery, AfterSchedule;
    hide AfterReadClaims, PlacedRequirements;
  }

  /** What never changes: the configuration, and the stored row of a pass once it is read. */
  predicate SameConfig(a: Deployment, b: Deployment) {
    a.mounts == b.mounts && a.replicas == b.replicas && a.ports == b.ports
  }

  lemma MoveKeepsConfig(s: State, id: PassId, pass: Pass, move: Move)
    requires MoveAllowed(s, id, pass, move)
    ensures SameConfig(AfterMove(s, id, pass, move).row, s.row)
    ensures AfterMove(s, id, pass, move).clock == s.clock && AfterMove(s, id, pass, move).used == s.used
  {
    hide BoundNodes, VolumesUsable, UnhealthyIds, ActiveIds, Missing, HasReplacement, BackoffMs, Scheduler.Decides;
    hide Bind;
    hide AfterReadRow, AfterReadWorkloads, AfterCheckVolumes, AfterDecide, AfterCheckRecovery, AfterSchedule;
    hide AfterReadClaims, PlacedRequirements;
  }

  /** A move keeps the stamp and, once read, the stored row of its pass. */
  lemma MoveKeepsSnapshot(s: State, id: PassId, pass: Pass, move: Move)
    requires MoveAllowed(s, id, pass, move) && id in AfterMove(s, id, pass, move).passes
    ensures AfterMove(s, id, pass, move).passes[id].stamp == pass.stamp
    ensures AfterMove(s, id, pass, move).passes[id].row == if move.ReadRow? then s.row else pass.row
    ensures AfterMove(s, id, pass, move).passes[id].rows == if move.ReadWorkloads? then s.rows else pass.rows
  {
    hide BoundNodes, VolumesUsable, UnhealthyIds, ActiveIds, Missing, HasReplacement, BackoffMs, Scheduler.Decides;
    hide Bind;
  }
}
