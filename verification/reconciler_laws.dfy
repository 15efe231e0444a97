/** What each statement of a pass decides and writes, in the columns of the rows it reads. */
module ReconcilerLaws {
  import opened Wrappers
  import opened Lifecycle
  import opened Reconciler
  import opened ReconcilerRecovery
  import Ports
  import Scheduler

  // ---------------------------------------------------------------------------------------------------------------
  // Recovery.

  /**
   * A placement is a recovery exactly when a row the pass read is lost, failed, or three times unhealthy: then it
   * counts an attempt, backs off and is logged; otherwise it leaves the recovery columns and the log alone.
   */
  lemma PlacementRecoversIff(s: State, id: PassId, pass: Pass, w: WorkloadId, at: Time)
    requires MoveAllowed(s, id, pass, Place(w, at))
    ensures var s' := AfterMove(s, id, pass, Place(w, at));
            if exists v :: v in pass.rows && (pass.rows[v].actual == Actual.Lost || pass.rows[v].actual == Actual.Failed
                                              || pass.rows[v].failures >= 3)
            then
              && s'.row.attempts == pass.row.attempts + 1 <= 5 && s'.row.recovery == Backoff
              && s'.row.nextAttemptAt == Some(at + 30_000 * Pow2(pass.row.attempts))
              && s'.log == s.log + [Placement(pass.row.attempts + 1, at, id)]
            else
              && s'.row.attempts == s.row.attempts && s'.row.recovery == s.row.recovery
              && s'.row.nextAttemptAt == s.row.nextAttemptAt && s'.log == s.log
  {
    hide BackoffMs, PlacedRequirements;
    if HasReplacement(pass.rows) {
      BackoffDoubles(pass.row.attempts + 1);
    }
  }

  /** A pass about to place escalates exactly when the placement would be a sixth recovery, and places otherwise. */
  lemma EscalatesIff(s: State, id: PassId, pass: Pass, w: WorkloadId, at: Time)
    requires pass.pc == Placing && w !in s.rows && pass.checkedAt <= at <= s.clock
    ensures MoveAllowed(s, id, pass, Escalate) <==>
              if exists v :: v in pass.rows
                  && (pass.rows[v].actual == Actual.Lost || pass.rows[v].actual == Actual.Failed
                                                || pass.rows[v].failures >= 3)
              then pass.row.attempts >= 5 else pass.row.attempts > 5
    ensures MoveAllowed(s, id, pass, Place(w, at)) <==> !MoveAllowed(s, id, pass, Escalate)
  {
  }

  lemma EscalationWrites(s: State, id: PassId, pass: Pass)
    requires MoveAllowed(s, id, pass, Escalate)
    ensures AfterMove(s, id, pass, Escalate)
         == s.(row := s.row.(recovery := ManualIntervention), escalatedAt := Some(s.clock),
             passes := s.passes[id := pass.(pc := Done)])
  {
  }

  /**
   * The loop goes on to choose a node exactly when a workload is missing, nobody has to intervene, and no backoff is
   * running.
   */
  lemma ChoosesIff(s: State, id: PassId, pass: Pass)
    requires MoveAllowed(s, id, pass, CheckRecovery)
    ensures AfterMove(s, id, pass, CheckRecovery).passes[id]
         == if pass.index < pass.missing && pass.row.recovery != ManualIntervention
               && (pass.row.nextAttemptAt.None? || pass.row.nextAttemptAt.value <= s.clock)
            then pass.(pc := ChoosingNode, checkedAt := s.clock) else pass.(pc := Done)
  {
  }

  /** With an eligible node the pass goes on with one, by way of its managed volumes if it has any; else it is done. */
  lemma SchedulesOn(s: State, id: PassId, pass: Pass, nodes: set<Scheduler.Node>, decision: Option<NodeId>)
    requires MoveAllowed(s, id, pass, Schedule(nodes, decision))
    ensures var pass' := AfterMove(s, id, pass, Schedule(nodes, decision)).passes[id];
            if exists n :: n in nodes && Scheduler.Eligible(n, pass.requirements) then
              && (exists n :: n in nodes && Scheduler.Eligible(n, pass.requirements) && n.id == pass'.target)
              && pass' == pass.(target := pass'.target, pc := pass'.pc)
              && pass'.pc == if exists m :: m in pass.row.mounts && m.Some? then ClaimingVolumes else Placing
            else pass' == pass.(pc := Done)
  {
    ManagedIffMounted(pass.row.mounts);
    hide Scheduler.Eligible, Scheduler.NothingBefore;
  }

  // ---------------------------------------------------------------------------------------------------------------
  // The lease.

  /**
   * A claim succeeds exactly when no lease is stored or it ended before the pass began, and then lasts a minute from
   * there.
   */
  lemma ClaimsIff(s: State, id: PassId, pass: Pass)
    requires MoveAllowed(s, id, pass, Claim)
    ensures AfterMove(s, id, pass, Claim)
         == if s.row.lease.None? || s.row.lease.value.until < pass.stamp
            then s.(row := s.row.(lease := Some(Lease(id, pass.stamp + 60_000))),
                passes := s.passes[id := pass.(pc := Claimed)])
            else s.(passes := s.passes - {id})
  {
  }

  lemma ReleaseWrites(s: State, id: PassId, pass: Pass)
    requires MoveAllowed(s, id, pass, Release)
    ensures AfterMove(s, id, pass, Release)
         == s.(passes := s.passes - {id},
               row := if s.row.lease.Some? && s.row.lease.value.holder == id then s.row.(lease := None) else s.row)
  {
  }

  // ---------------------------------------------------------------------------------------------------------------
  // Retiring and counting.

  /** A deployment that is not wanted running has all its workloads stopped, or deleted, that are not yet. */
  lemma UnwantedIsRetired(s: State, id: PassId, pass: Pass)
    requires MoveAllowed(s, id, pass, ReadWorkloads) && pass.row.desired != Desired.Running
    ensures var pass' := AfterMove(s, id, pass, ReadWorkloads).passes[id];
            && pass'.rows == s.rows && pass'.pc.Retiring?
            && pass'.pc.kind == (if pass.row.desired == Desired.Deleted then Desired.Deleted else Desired.Stopped)
            && forall w :: w in pass'.pc.targets <==> w in s.rows && s.rows[w].desired != pass'.pc.kind
  {
  }

  /** Of one that is wanted running the pass goes on, unless fixed host ports meet several replicas. */
  lemma WantedGoesOn(s: State, id: PassId, pass: Pass)
    requires MoveAllowed(s, id, pass, ReadWorkloads) && pass.row.desired == Desired.Running
    ensures var pass' := AfterMove(s, id, pass, ReadWorkloads).passes[id];
            var fixed := exists p :: p in pass.row.ports && p.isPublic && p.fixed.Some?;
            && pass'.rows == s.rows
            && (pass'.pc == Done <==> fixed && pass.row.replicas > 1)
            && (pass'.pc != Done ==>
                  && pass'.pc == (if exists m :: m in pass.row.mounts && m.Some? then CheckingVolumes else Deciding)
                  && (fixed ==> pass'.requirements
                                == pass.requirements.(requestedHostPorts := Ports.FixedHostPorts(pass.row.ports)))
                  && (!fixed ==> pass'.requirements == pass.requirements))
  {
    FixedIffListed(pass.row.ports);
    ManagedIffMounted(pass.row.mounts);
    hide Ports.FixedHostPorts;
  }

  lemma {:induction false} FixedIffListed(ports: seq<Ports.PortSpec>)
    ensures Ports.FixedHostPorts(ports) != [] <==> exists p :: p in ports && p.isPublic && p.fixed.Some?
  {
    if Ports.FixedHostPorts(ports) != [] {
      assert Ports.FixedHostPorts(ports)[0] in Ports.FixedHostPorts(ports);
    }
    if p :| p in ports && p.isPublic && p.fixed.Some? {
      assert Ports.HostPort(p.fixed.value, p.protocol) in Ports.FixedHostPorts(ports);
    }
  }

  lemma {:induction false} ManagedIffMounted(mounts: seq<Option<VolumeId>>)
    ensures forall v :: v in ManagedOf(mounts) <==> Some(v) in mounts
    ensures ManagedOf(mounts) != [] <==> exists m :: m in mounts && m.Some?
  {
    if mounts != [] {
      ManagedIffMounted(mounts[1..]);
    }
    if ManagedOf(mounts) != [] {
      assert ManagedOf(mounts)[0] in ManagedOf(mounts) && Some(ManagedOf(mounts)[0]).Some?;
    }
  }

  /**
   * A pass that decides retires the wanted workloads that failed or were three times unhealthy, if there are any and no
   * volumes; else it places as many as are missing, not counting lost ones without volumes; else it resets the
   * recovery, if there is any and every counted workload is up and healthy, or is done.
   */
  lemma DecidesOnRows(s: State, id: PassId, pass: Pass)
    requires MoveAllowed(s, id, pass, Decide)
    ensures var pass' := AfterMove(s, id, pass, Decide).passes[id];
            var sick := set w | w in pass.rows && pass.rows[w].desired == Desired.Running
                          && (pass.rows[w].actual == Actual.Failed || pass.rows[w].failures >= 3);
            var counted := set w | w in pass.rows && pass.rows[w].desired == Desired.Running
                             && (pass.row.mounts != [] || pass.rows[w].actual != Actual.Lost);
            pass' ==
              if pass.row.mounts == [] && sick != {} then pass.(pc := Retiring(sick, Desired.Stopped))
              else if |counted| < pass.row.replicas
              then pass.(pc := LoopTop, missing := pass.row.replicas - |counted|, index := 0)
              else if pass.row.recovery != Idle
                      && forall w :: w in counted ==>
                           && pass.rows[w].actual == Actual.Running
                           && (pass.rows[w].health == Health.Healthy || pass.rows[w].health == Health.NoCheck)
              then pass.(pc := Resetting) else pass.(pc := Done)
  {
    var sick := set w | w in pass.rows && pass.rows[w].desired == Desired.Running
                  && (pass.rows[w].actual == Actual.Failed || pass.rows[w].failures >= 3);
    var counted := set w | w in pass.rows && pass.rows[w].desired == Desired.Running
                     && (pass.row.mounts != [] || pass.rows[w].actual != Actual.Lost);
    assert UnhealthyIds(pass.rows) == sick;
    assert ActiveIds(pass.rows, Persistent(pass.row)) == counted;
  }

  lemma RetireAndResetWrite(s: State, id: PassId, pass: Pass)
    ensures forall w :: MoveAllowed(s, id, pass, Retire(w)) ==>
              AfterMove(s, id, pass, Retire(w)).rows == s.rows[w := s.rows[w].(desired := pass.pc.kind)]
    ensures MoveAllowed(s, id, pass, Reset) ==>
              && AfterMove(s, id, pass, Reset).row == s.row.(attempts := 0, nextAttemptAt := None, recovery := Idle)
              && AfterMove(s, id, pass, Reset).rows == s.rows
  {
  }

  // ---------------------------------------------------------------------------------------------------------------
  // Volumes.

  /**
   * A pass refuses to go on when a mounted volume is missing, mounted twice or not usable, or when two are bound to
   * different nodes; it pins the node the others are bound to.
   */
  lemma ChecksVolumes(s: State, id: PassId, pass: Pass)
    requires MoveAllowed(s, id, pass, CheckVolumes)
    ensures var pass' := AfterMove(s, id, pass, CheckVolumes).passes[id];
            var mounted := ManagedOf(pass.row.mounts);
            && (pass'.pc == Done <==>
                  || (exists v :: v in mounted && v !in s.volumes)
                  || !NoneTwice(mounted)
                  || (exists v :: v in mounted && v in s.volumes
                                  && s.volumes[v].status != Available && s.volumes[v].status != InUse)
                  || exists v, u :: v in mounted && v in s.volumes && u in mounted && u in s.volumes
                       && s.volumes[v].node.Some? && s.volumes[u].node.Some? && s.volumes[v].node != s.volumes[u].node)
            && (pass'.pc != Done ==>
                  forall v :: v in mounted && v in s.volumes && s.volumes[v].node.Some? ==>
                    pass'.requirements.requiredNode == s.volumes[v].node)
            && (pass'.pc != Done && (forall v :: v in mounted && v in s.volumes ==> s.volumes[v].node.None?) ==>
                  pass'.requirements == pass.requirements)
  {
    hide BoundNodes, VolumesUsable;
    UsableIff(pass.row, s.volumes);
    BoundNodesAre(pass.row, s.volumes);
  }

  lemma UsableIff(row: Deployment, volumes: map<VolumeId, Volume>)
    ensures var mounted := ManagedOf(row.mounts);
            VolumesUsable(row, volumes) <==>
              && (forall v :: v in mounted ==> v in volumes)
              && NoneTwice(mounted)
              && (forall v :: v in mounted && v in volumes ==>
                  volumes[v].status == Available || volumes[v].status == InUse)
  {
    var mounted := ManagedOf(row.mounts);
    var present := set v | v in Managed(row) && v in volumes;
    DistinctIffFull(mounted, present);
    assert forall v :: v in mounted ==> (v in present <==> v in volumes);
    assert VolumesUsable(row, volumes) <==>
             && |present| == |mounted|
             && forall v :: v in mounted && v in volumes ==>
                 volumes[v].status == Available || volumes[v].status == InUse;
    hide VolumesUsable;
  }

  predicate NoneTwice(mounted: seq<VolumeId>) { forall i, j :: 0 <= i < j < |mounted| ==> mounted[i] != mounted[j] }

  lemma NoneTwiceSnoc(init: seq<VolumeId>, last: VolumeId)
    ensures NoneTwice(init + [last]) <==> NoneTwice(init) && last !in init
  {
    var mounted := init + [last];
    if NoneTwice(mounted) {
      forall i, j | 0 <= i < j < |init| ensures init[i] != init[j] {
        assert mounted[i] != mounted[j];
      }
      forall k | 0 <= k < |init| ensures init[k] != last {
        assert mounted[k] != mounted[|init|];
      }
    }
  }

  lemma {:induction false} DistinctIffFull(mounted: seq<VolumeId>, present: set<VolumeId>)
    requires forall v :: v in present ==> v in mounted
    ensures |present| == |mounted| <==> (forall v :: v in mounted ==> v in present) && NoneTwice(mounted)
    ensures |present| <= |mounted|
  {
    if mounted == [] {
      assert present == {};
    } else {
      hide NoneTwice;
      var init, last := mounted[..|mounted| - 1], mounted[|mounted| - 1];
      var fewer := set v | v in present && v in init;
      DistinctIffFull(init, fewer);
      assert mounted == init + [last];
      NoneTwiceSnoc(init, last);
      if last in present && last !in init {
        assert present == fewer + {last};
      } else {
        assert present == fewer;
      }
    }
  }

  lemma BoundNodesAre(row: Deployment, volumes: map<VolumeId, Volume>)
    ensures forall n :: n in BoundNodes(row, volumes) <==>
              exists v :: v in Managed(row) && v in volumes && volumes[v].node == Some(n)
    ensures |BoundNodes(row, volumes)| > 1 <==>
              exists v, u :: v in Managed(row) && v in volumes && u in Managed(row) && u in volumes
                && volumes[v].node.Some? && volumes[u].node.Some? && volumes[v].node != volumes[u].node
    ensures (forall v :: v in Managed(row) && v in volumes ==> volumes[v].node.None?)
              <==> BoundNodes(row, volumes) == {}
  {
    var nodes := BoundNodes(row, volumes);
    MoreThanOneIff(nodes);
    hide Managed;
    if |nodes| > 1 {
      var a, b :| a in nodes && b in nodes && a != b;
      var v :| v in Managed(row) && v in volumes && volumes[v].node == Some(a);
      var u :| u in Managed(row) && u in volumes && volumes[u].node == Some(b);
    }
  }

  lemma MoreThanOneIff(nodes: set<NodeId>)
    ensures |nodes| > 1 <==> exists a, b :: a in nodes && b in nodes && a != b
  {
    if |nodes| > 1 {
      var a :| a in nodes;
      assert |nodes - {a}| == |nodes| - 1;
      var b :| b in nodes - {a};
    }
    if a, b :| a in nodes && b in nodes && a != b {
      assert {a, b} <= nodes && nodes == {a, b} + (nodes - {a, b});
    }
  }

  /** A claim binds the mounted volumes that have no node, and no others. */
  lemma ClaimBindsUnbound(s: State, id: PassId, pass: Pass)
    requires MoveAllowed(s, id, pass, ClaimVolumes)
    ensures var after := AfterMove(s, id, pass, ClaimVolumes).volumes;
            && after.Keys == s.volumes.Keys
            && forall v :: v in s.volumes ==>
                 after[v] == if Some(v) in pass.row.mounts && s.volumes[v].node.None?
                     then Volume(Some(pass.target), InUse)
                             else s.volumes[v]
  {
    ManagedIffMounted(pass.row.mounts);
  }

  /** Reading the claims confirms the target, retries on the one node all bound volumes share, or gives up. */
  lemma ClaimsDecide(s: State, id: PassId, pass: Pass)
    requires MoveAllowed(s, id, pass, ReadClaims)
    ensures var pass' := AfterMove(s, id, pass, ReadClaims).passes[id];
            var mounted := ManagedOf(pass.row.mounts);
            if exists n :: OneNode(pass.row, s.volumes, n) then
              && pass'.pc == (if pass'.requirements.requiredNode == Some(pass.target) then SavingPin else SavingRetry)
              && pass'.requirements == pass.requirements.(requiredNode := pass'.requirements.requiredNode)
              && forall u :: u in mounted && u in s.volumes && s.volumes[u].node.Some? ==>
                   pass'.requirements.requiredNode == s.volumes[u].node
            else pass' == pass.(pc := Done)
  {
    hide BoundNodes, ManagedOf;
    BoundNodesAre(pass.row, s.volumes);
    var nodes := BoundNodes(pass.row, s.volumes);
    if |nodes| == 1 {
      var n := Only(nodes);
      assert n in nodes;
      assert OneNode(pass.row, s.volumes, n);
    }
    if n :| OneNode(pass.row, s.volumes, n) {
      assert nodes == {n};
    }
  }

  /** Some mounted volume is bound to the node, and none to another. */
  ghost predicate OneNode(row: Deployment, volumes: map<VolumeId, Volume>, n: NodeId) {
    && (exists v :: v in ManagedOf(row.mounts) && v in volumes && volumes[v].node == Some(n))
    && forall u :: u in ManagedOf(row.mounts) && u in volumes && volumes[u].node.Some? ==> volumes[u].node == Some(n)
  }

  // ---------------------------------------------------------------------------------------------------------------
  // The placement itself.

  /** What a placement inserts, and the node it pins for a deployment with volumes. */
  lemma PlacementInserts(s: State, id: PassId, pass: Pass, w: WorkloadId, at: Time)
    requires MoveAllowed(s, id, pass, Place(w, at))
    ensures var s' := AfterMove(s, id, pass, Place(w, at));
            && s'.rows == s.rows[w := Workload(pass.target, Desired.Running, Actual.Pending, Health.NoCheck, 0)]
            && s'.row.requirements
               == (if pass.row.mounts != [] && pass.requirements.requiredNode.None?
                   then pass.requirements.(requiredNode := Some(pass.target)) else s.row.requirements)
            && s'.volumes == s.volumes && s'.row.desired == s.row.desired && s'.row.lease == s.row.lease
            && s'.passes[id].pc == LoopTop && s'.passes[id].index == pass.index + 1
  {
    hide BackoffMs, HasReplacement, RecoveryAttempt;
  }
}
