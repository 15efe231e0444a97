/** Workload rows and the deployment status derived from them. */
module Lifecycle {
  import Scheduler

  /** Ids are opaque: only their equality matters. */
  datatype WorkloadId = WorkloadId(id: int)

  type NodeId = Scheduler.NodeId

  datatype Desired = Running | Stopped | Deleted

  datatype Actual = Pending | Starting | Running | Stopped | Failed | Lost | Unknown

  datatype Health = NoCheck | Starting | Healthy | Unhealthy | Unknown

  datatype Workload = Workload(node: NodeId, desired: Desired, actual: Actual, health: Health, failures: nat)

  type Rows = map<WorkloadId, Workload>

  datatype Status = Queued | Scheduling | Starting | Running | Degraded | Failed | Stopping | Stopped | Superseded

  function RunningIds(rows: Rows): set<WorkloadId> {
    set w | w in rows && rows[w].desired == Desired.Running
  }

  predicate Serving(workload: Workload) {
    workload.actual == Actual.Running && (workload.health == Health.Healthy || workload.health == Health.NoCheck)
  }

  function DeriveDeploymentStatus(desired: Desired, replicas: nat, rows: Rows): Status {
    if desired != Desired.Running then
      if forall w :: w in rows ==>
          rows[w].actual == Actual.Stopped || rows[w].desired == Desired.Deleted then Status.Stopped
      else Status.Stopping
    else
      var active := RunningIds(rows);
      if exists w :: w in active && rows[w].actual == Actual.Lost then Status.Degraded
      else if exists w :: w in active && rows[w].actual == Actual.Failed then
        if exists w :: w in active && rows[w].actual == Actual.Running then Status.Degraded else Status.Failed
      else if exists w :: w in active && rows[w].health == Health.Unhealthy then Status.Degraded
      else if |active| < replicas then if |active| == 0 then Status.Scheduling else Status.Starting
      else if forall w :: w in active ==> Serving(rows[w]) then Status.Running
      else Status.Starting
  }

  /** Status `Running` says exactly that enough replicas are wanted and every wanted one is up and healthy. */
  lemma RunningIffAllServe(desired: Desired, replicas: nat, rows: Rows)
    ensures DeriveDeploymentStatus(desired, replicas, rows) == Status.Running
       <==> && desired == Desired.Running
            && |RunningIds(rows)| >= replicas
            && forall w :: w in RunningIds(rows) ==> Serving(rows[w])
  {
  }

  /** A lost, failed or unhealthy workload that is still wanted always shows, whatever the others do. */
  lemma TroubleAlwaysShows(replicas: nat, rows: Rows, w: WorkloadId)
    requires w in RunningIds(rows)
    requires rows[w].actual == Actual.Lost || rows[w].actual == Actual.Failed || rows[w].health == Health.Unhealthy
    ensures DeriveDeploymentStatus(Desired.Running, replicas, rows) in {Status.Degraded, Status.Failed}
    ensures rows[w].actual == Actual.Lost ==> DeriveDeploymentStatus(Desired.Running, replicas, rows) == Status.Degraded
  {
  }

  /** Every status by what the wanted workloads show, in the order the facts are looked at. */
  lemma StatusesMean(desired: Desired, replicas: nat, rows: Rows)
    ensures var status := DeriveDeploymentStatus(desired, replicas, rows);
            var wanted := set w | w in rows && rows[w].desired == Desired.Running;
            var lost := exists w :: w in wanted && rows[w].actual == Actual.Lost;
            var failed := exists w :: w in wanted && rows[w].actual == Actual.Failed;
            var up := exists w :: w in wanted && rows[w].actual == Actual.Running;
            var unhealthy := exists w :: w in wanted && rows[w].health == Health.Unhealthy;
            var settled := forall w :: w in rows ==>
              rows[w].actual == Actual.Stopped || rows[w].desired == Desired.Deleted;
            var serving := forall w :: w in wanted ==>
              && rows[w].actual == Actual.Running
              && (rows[w].health == Health.Healthy || rows[w].health == Health.NoCheck);
            if desired != Desired.Running then status == if settled then Status.Stopped else Status.Stopping
            else
              && (status == Status.Degraded <==> lost || (failed && up) || (!failed && unhealthy))
              && (status == Status.Failed <==> !lost && failed && !up)
              && (status == Status.Scheduling <==> !lost && !failed && !unhealthy && wanted == {} && replicas > 0)
              && (status == Status.Running <==> !lost && !failed && !unhealthy && |wanted| >= replicas && serving)
              && (status == Status.Starting <==>
                    !lost && !failed && !unhealthy && ((0 < |wanted| < replicas) || (|wanted| >= replicas && !serving)))
  {
    assert RunningIds(rows) == set w | w in rows && rows[w].desired == Desired.Running;
  }

  // ---------------------------------------------------------------------------------------------------------------
  // What agents and the liveness controller write into a row.

  /** A telemetry report: the failure count runs on while reports are unhealthy and restarts otherwise. */
  function Reported(workload: Workload, actual: Actual, health: Health): Workload {
    workload.(actual := actual, health := health, failures := if health == Health.Unhealthy
        then workload.failures + 1 else 0)
  }

  /** A node loss: stateless workloads are retired, volume-backed ones only marked. */
  function LostWithNode(workload: Workload, persistent: bool): Workload {
    workload.(actual := Actual.Lost, health := Health.Unknown, desired := if persistent then workload.desired
        else Desired.Stopped)
  }

  predicate CountedUnhealthy(workload: Workload) {
    workload.failures > 0 ==> workload.health == Health.Unhealthy || workload.health == Health.Unknown
  }

}
