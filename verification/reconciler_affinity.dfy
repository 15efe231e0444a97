/** Local volumes bind once, and a deployment with managed volumes stays on their node, with or without the lease. */
module ReconcilerAffinity {
  import opened Wrappers
  import opened Lifecycle
  import opened Reconciler
  import Scheduler

  /** Every managed volume that still exists is bound to `node`. */
  ghost predicate AllBoundTo(mounts: seq<Option<VolumeId>>, volumes: map<VolumeId, Volume>, node: NodeId) {
    forall v :: v in ManagedOf(mounts) && v in volumes ==> volumes[v].node == Some(node)
  }

  ghost predicate AllBound(mounts: seq<Option<VolumeId>>, volumes: map<VolumeId, Volume>) {
    forall v :: v in ManagedOf(mounts) && v in volumes ==> volumes[v].node.Some?
  }

  /** The volumes changed only as claims and deletions change them: no bound one was bound elsewhere. */
  ghost predicate BoundStay(mounts: seq<Option<VolumeId>>, before: map<VolumeId, Volume>,
                            after: map<VolumeId, Volume>) {
    forall v :: v in ManagedOf(mounts) && v in after ==>
      v in before && (before[v].node.Some? ==> after[v].node == before[v].node)
  }

  predicate Early(pc: Pc)
    { (pc.Begun? || pc.Claimed? || pc.HasRow? || pc.CheckingVolumes? || pc.SavingNode? || pc.Deciding?) }

  predicate Confirmed(pass: Pass) { pass.pc == SavingPin || pass.pc == Placing }

  ghost predicate PassOk(mounts: seq<Option<VolumeId>>, volumes: map<VolumeId, Volume>, pass: Pass) {
    && pass.row.mounts == mounts
    && pass.retries <= 1
    && (Early(pass.pc) ==> pass.retries == 0 && pass.index == 0)
    && (pass.retries + pass.index > 0 ==>
          pass.requirements.requiredNode.Some? && AllBoundTo(mounts, volumes, pass.requirements.requiredNode.value))
    && ((pass.pc.ClaimingVolumes? || pass.pc.ReadingClaims?) && pass.requirements.requiredNode.Some? ==>
          pass.target == pass.requirements.requiredNode.value)
    && (pass.pc == ReadingClaims ==> AllBound(mounts, volumes))
    && (Confirmed(pass) ==>
          pass.requirements.requiredNode == Some(pass.target) && AllBoundTo(mounts, volumes, pass.target))
  }

  ghost predicate PassesOk(s: State) {
    forall id :: id in s.passes ==> PassOk(s.row.mounts, s.volumes, s.passes[id])
  }

  /** No workload exists and no pass is about to create one. */
  ghost predicate Homeless(s: State) {
    s.rows == map[] && forall id :: id in s.passes ==> !Confirmed(s.passes[id])
  }

  /** Workloads, placements under way and volumes all share `node`. */
  ghost predicate AtHome(s: State, node: NodeId) {
    && AllBoundTo(s.row.mounts, s.volumes, node)
    && (forall w :: w in s.rows ==> s.rows[w].node == node)
    && (forall id :: id in s.passes && Confirmed(s.passes[id]) ==> s.passes[id].target == node)
  }

  ghost predicate Settled(s: State) { Homeless(s) || exists node :: AtHome(s, node) }

  ghost predicate Inv(s: State) { PassesOk(s) && Settled(s) }

  // ---------------------------------------------------------------------------------------------------------------

  /** What a move leaves alone: the mounts always, a volume's node once it is written. */
  lemma MoveKeepsBinding(s: State, id: PassId, pass: Pass, move: Move)
    requires MoveAllowed(s, id, pass, move)
    ensures AfterMove(s, id, pass, move).row.mounts == s.row.mounts
    ensures BoundStay(s.row.mounts, s.volumes, AfterMove(s, id, pass, move).volumes)
  {
    hide BoundNodes, VolumesUsable, UnhealthyIds, ActiveIds, Missing, HasReplacement, BackoffMs, Scheduler.Decides;
    hide AfterReadRow, AfterReadWorkloads, AfterCheckVolumes, AfterDecide, AfterCheckRecovery, AfterSchedule;
    hide AfterReadClaims, PlacedRequirements;
  }

  lemma ChangeKeepsBinding(s: State, change: Change)
    requires ChangeAllowed(s, change)
    ensures AfterChange(s, change).row.mounts == s.row.mounts
    ensures BoundStay(s.row.mounts, s.volumes, AfterChange(s, change).volumes)
  {
  }

  /** A volume's node, once written, is never written again. */
  lemma NodeIsWrittenOnce(s: State, event: Event)
    requires Allowed(s, event)
    ensures After(s, event).row.mounts == s.row.mounts
    ensures BoundStay(s.row.mounts, s.volumes, After(s, event).volumes)
  {
    hide MoveAllowed, ChangeAllowed, AfterMove, AfterChange, BoundStay;
    match event
    case ByPass(id, move) => MoveKeepsBinding(s, id, s.passes[id], move);
    case Outside(change) => ChangeKeepsBinding(s, change);
  }

  lemma PassStaysOk(mounts: seq<Option<VolumeId>>, before: map<VolumeId, Volume>, after: map<VolumeId, Volume>,
                    pass: Pass)
    requires PassOk(mounts, before, pass) && BoundStay(mounts, before, after)
    ensures PassOk(mounts, after, pass)
  {
  }

  /** After a retry or a placement the scheduler can only return the node the volumes are bound to. */
  lemma ScheduleKeepsPassOk(mounts: seq<Option<VolumeId>>, volumes: map<VolumeId, Volume>, pass: Pass,
                            nodes: set<Scheduler.Node>, decision: Option<NodeId>)
    requires PassOk(mounts, volumes, pass) && ManagedOf(mounts) != [] && pass.pc == ChoosingNode
    requires Scheduler.Decides(nodes, pass.requirements, decision)
    ensures PassOk(mounts, volumes, AfterSchedule(pass, decision))
  {
    if pass.requirements.requiredNode.Some? {
      Scheduler.PinnedDecision(nodes, pass.requirements, pass.requirements.requiredNode.value, decision);
    }
  }

  /** Reading the claims confirms the target or retries; a retry cannot follow a retry or a placement. */
  lemma ReadClaimsKeepsPassOk(s: State, pass: Pass)
    requires PassOk(s.row.mounts, s.volumes, pass) && pass.pc == ReadingClaims
    ensures PassOk(s.row.mounts, s.volumes, AfterReadClaims(s, pass))
  {
    var nodes := BoundNodes(pass.row, s.volumes);
    if |nodes| == 1 {
      var n := Only(nodes);
      assert nodes == {n};
      forall v | v in ManagedOf(s.row.mounts) && v in s.volumes ensures s.volumes[v].node == Some(n) {
        assert s.volumes[v].node.value in nodes;
      }
    }
  }

  lemma ReadClaimsStaysHome(s: State, pass: Pass, node: NodeId)
    requires PassOk(s.row.mounts, s.volumes, pass) && pass.pc == ReadingClaims
              && AllBoundTo(s.row.mounts, s.volumes, node)
    ensures Confirmed(AfterReadClaims(s, pass)) ==> AfterReadClaims(s, pass).target == node
  {
    var nodes := BoundNodes(pass.row, s.volumes);
    if |nodes| == 1 {
      assert Only(nodes) in nodes;
    }
  }

  lemma BindBindsAll(row: Deployment, volumes: map<VolumeId, Volume>, node: NodeId)
    ensures AllBound(row.mounts, Bind(volumes, Managed(row), node))
  {
  }

  lemma ReadsKeepPassOk(s: State, pass: Pass)
    requires PassOk(s.row.mounts, s.volumes, pass)
    ensures pass.pc == Claimed ==> PassOk(s.row.mounts, s.volumes, AfterReadRow(s, pass))
    ensures pass.pc == HasRow ==> PassOk(s.row.mounts, s.volumes, AfterReadWorkloads(s, pass))
    ensures pass.pc == CheckingVolumes ==> PassOk(s.row.mounts, s.volumes, AfterCheckVolumes(s, pass))
    ensures pass.pc == Deciding ==> PassOk(s.row.mounts, s.volumes, AfterDecide(pass))
    ensures pass.pc == LoopTop ==> PassOk(s.row.mounts, s.volumes, AfterCheckRecovery(s, pass))
  {
    hide BoundNodes, VolumesUsable, UnhealthyIds, ActiveIds, Missing, FixedPortsRefused, AllBoundTo, AllBound;
  }

  lemma MoveKeepsPassOk(s: State, id: PassId, move: Move)
    requires PassesOk(s) && Managed(s.row) != []
    requires Allowed(s, ByPass(id, move))
    ensures var s' := After(s, ByPass(id, move));
            id in s'.passes ==> PassOk(s.row.mounts, s'.volumes, s'.passes[id])
  {
    hide AfterMove, PassOk, Scheduler.Decides;
    var pass := s.passes[id];
    if move.ReadRow? || move.ReadWorkloads? || move.CheckVolumes? || move.Decide? || move.CheckRecovery? {
      ReadMoveKeepsPassOk(s, id, pass, move);
    } else if move.Schedule? || move.ReadClaims? || move.ClaimVolumes? {
      ClaimMoveKeepsPassOk(s, id, pass, move);
    } else {
      WriteMoveKeepsPassOk(s, id, pass, move);
    }
  }

  lemma ReadMoveKeepsPassOk(s: State, id: PassId, pass: Pass, move: Move)
    requires MoveAllowed(s, id, pass, move) && PassOk(s.row.mounts, s.volumes, pass)
    requires move.ReadRow? || move.ReadWorkloads? || move.CheckVolumes? || move.Decide? || move.CheckRecovery?
    ensures var s' := AfterMove(s, id, pass, move);
            id in s'.passes ==> PassOk(s.row.mounts, s'.volumes, s'.passes[id])
  {
    hide AfterReadRow, AfterReadWorkloads, AfterCheckVolumes, AfterDecide, AfterCheckRecovery, PassOk;
    ReadsKeepPassOk(s, pass);
  }

  lemma ClaimMoveKeepsPassOk(s: State, id: PassId, pass: Pass, move: Move)
    requires MoveAllowed(s, id, pass, move) && PassOk(s.row.mounts, s.volumes, pass) && ManagedOf(s.row.mounts) != []
    requires move.Schedule? || move.ReadClaims? || move.ClaimVolumes?
    ensures var s' := AfterMove(s, id, pass, move);
            id in s'.passes ==> PassOk(s.row.mounts, s'.volumes, s'.passes[id])
  {
    hide Scheduler.Decides, Bind, AllBoundTo, AllBound, AfterSchedule, AfterReadClaims;
    match move
    case Schedule(nodes, decision) => ScheduleKeepsPassOk(s.row.mounts, s.volumes, pass, nodes, decision);
    case ReadClaims => ReadClaimsKeepsPassOk(s, pass);
    case _ =>
      MoveKeepsBinding(s, id, pass, move);
      PassStaysOk(s.row.mounts, s.volumes, Bind(s.volumes, Managed(pass.row), pass.target), pass);
      BindBindsAll(pass.row, s.volumes, pass.target);
  }

  lemma WriteMoveKeepsPassOk(s: State, id: PassId, pass: Pass, move: Move)
    requires MoveAllowed(s, id, pass, move) && PassOk(s.row.mounts, s.volumes, pass) && ManagedOf(s.row.mounts) != []
    requires !move.ReadRow? && !move.ReadWorkloads? && !move.CheckVolumes? && !move.Decide? && !move.CheckRecovery?
    requires !move.Schedule? && !move.ReadClaims? && !move.ClaimVolumes?
    ensures var s' := AfterMove(s, id, pass, move);
            id in s'.passes ==> PassOk(s.row.mounts, s'.volumes, s'.passes[id])
  {
    hide HasReplacement, BackoffMs, AllBoundTo, AllBound;
  }

  lemma StepKeepsPassesOk(s: State, event: Event)
    requires PassesOk(s) && Managed(s.row) != [] && Allowed(s, event)
    ensures PassesOk(After(s, event))
  {
    hide MoveAllowed, AfterMove, BoundStay, PassOk;
    NodeIsWrittenOnce(s, event);
    var s' := After(s, event);
    forall id | id in s'.passes ensures PassOk(s'.row.mounts, s'.volumes, s'.passes[id]) {
      match event
      case ByPass(actor, move) =>
        if id == actor {
          MoveKeepsPassOk(s, id, move);
        } else {
          MoveKeepsOthers(s, actor, s.passes[actor], move, id);
          PassStaysOk(s.row.mounts, s.volumes, s'.volumes, s.passes[id]);
        }
      case Outside(change) =>
        if id in s.passes && s'.passes[id] == s.passes[id] {
          PassStaysOk(s.row.mounts, s.volumes, s'.volumes, s.passes[id]);
        } else {
          NewPassOk(s, id, change);
        }
    }
  }

  lemma NewPassOk(s: State, id: PassId, change: Change)
    requires ChangeAllowed(s, change) && id in AfterChange(s, change).passes
    requires id in s.passes ==> AfterChange(s, change).passes[id] != s.passes[id]
    ensures PassOk(s.row.mounts, AfterChange(s, change).volumes, AfterChange(s, change).passes[id])
  {
  }

  // ---------------------------------------------------------------------------------------------------------------
  // One home.

  /** The confirmed pass alone creates workloads, on its target; only reading the claims confirms a pass. */
  lemma WhatAMoveAdds(s: State, id: PassId, pass: Pass, move: Move)
    requires MoveAllowed(s, id, pass, move)
    requires ManagedOf(pass.row.mounts) != []
    ensures forall w :: w in AfterMove(s, id, pass, move).rows ==>
              if w in s.rows then AfterMove(s, id, pass, move).rows[w].node == s.rows[w].node
              else Confirmed(pass) && AfterMove(s, id, pass, move).rows[w].node == pass.target
    ensures id in AfterMove(s, id, pass, move).passes && Confirmed(AfterMove(s, id, pass, move).passes[id]) ==>
              if move.ReadClaims? then AfterMove(s, id, pass, move).passes[id] == AfterReadClaims(s, pass)
              else Confirmed(pass) && AfterMove(s, id, pass, move).passes[id].target == pass.target
  {
    WhatAMoveConfirms(s, id, pass, move);
    hide BoundNodes, VolumesUsable, UnhealthyIds, ActiveIds, Missing, HasReplacement, BackoffMs, Scheduler.Decides;
    hide Bind, Confirmed;
    hide AfterReadRow, AfterReadWorkloads, AfterCheckVolumes, AfterDecide, AfterCheckRecovery, AfterSchedule;
    hide AfterReadClaims, RowAfterPlace;
    assert move.Place? ==> Confirmed(pass);
  }

  lemma WhatAMoveConfirms(s: State, id: PassId, pass: Pass, move: Move)
    requires MoveAllowed(s, id, pass, move)
    requires ManagedOf(pass.row.mounts) != []
    ensures move.Place? ==> Confirmed(pass)
    ensures id in AfterMove(s, id, pass, move).passes && Confirmed(AfterMove(s, id, pass, move).passes[id]) ==>
              if move.ReadClaims? then AfterMove(s, id, pass, move).passes[id] == AfterReadClaims(s, pass)
              else Confirmed(pass) && AfterMove(s, id, pass, move).passes[id].target == pass.target
  {
    hide AfterReadRow, AfterReadWorkloads, AfterCheckVolumes, AfterDecide, AfterCheckRecovery, AfterSchedule;
    hide AfterReadClaims, RowAfterPlace, Scheduler.Decides, Bind, RecoveryAttempt, HasReplacement;
    ReadsDoNotConfirm(s, pass, if move.Schedule? then move.decision else None);
  }

  lemma ReadsDoNotConfirm(s: State, pass: Pass, decision: Option<NodeId>)
    requires ManagedOf(pass.row.mounts) != []
    ensures !Confirmed(AfterReadRow(s, pass)) && !Confirmed(AfterReadWorkloads(s, pass))
    ensures !Confirmed(AfterCheckVolumes(s, pass)) && !Confirmed(AfterDecide(pass))
    ensures !Confirmed(AfterCheckRecovery(s, pass)) && !Confirmed(AfterSchedule(pass, decision))
  {
    hide BoundNodes, VolumesUsable, UnhealthyIds, ActiveIds, Missing, FixedPortsRefused, WithFixedPorts, Pinned;
  }

  lemma MoveStaysHome(s: State, id: PassId, move: Move, node: NodeId)
    requires PassesOk(s) && Managed(s.row) != [] && AtHome(s, node)
    requires Allowed(s, ByPass(id, move))
    ensures AtHome(After(s, ByPass(id, move)), node)
  {
    hide AfterMove, AfterReadClaims;
    var pass, s' := s.passes[id], After(s, ByPass(id, move));
    NodeIsWrittenOnce(s, ByPass(id, move));
    WhatAMoveAdds(s, id, pass, move);
    if move.ReadClaims? {
      ReadClaimsStaysHome(s, pass, node);
    }
    forall other | other in s'.passes && other != id ensures other in s.passes && s'.passes[other] == s.passes[other] {
      MoveKeepsOthers(s, id, pass, move, other);
    }
  }

  lemma MoveFindsHome(s: State, id: PassId, move: Move)
    requires PassesOk(s) && Managed(s.row) != [] && Homeless(s)
    requires Allowed(s, ByPass(id, move))
    ensures Settled(After(s, ByPass(id, move)))
  {
    hide AfterMove, AfterReadClaims, MoveAllowed;
    var pass, s' := s.passes[id], After(s, ByPass(id, move));
    NodeIsWrittenOnce(s, ByPass(id, move));
    WhatAMoveAdds(s, id, pass, move);
    MoveKeepsPassOk(s, id, move);
    forall other | other in s'.passes && other != id ensures other in s.passes && s'.passes[other] == s.passes[other] {
      MoveKeepsOthers(s, id, pass, move, other);
    }
    if id in s'.passes && Confirmed(s'.passes[id]) {
      assert AtHome(s', s'.passes[id].target);
    } else {
      assert s'.rows == map[];
    }
  }

  lemma ChangeStaysHome(s: State, change: Change, node: NodeId)
    requires ChangeAllowed(s, change)
    ensures AtHome(s, node) ==> AtHome(AfterChange(s, change), node)
    ensures Homeless(s) ==> Homeless(AfterChange(s, change))
  {
    hide Bind;
    ChangeKeepsBinding(s, change);
  }

  lemma StepKeepsInv(s: State, event: Event)
    requires Inv(s) && Managed(s.row) != [] && Allowed(s, event)
    ensures Inv(After(s, event))
  {
    hide AtHome, Homeless, PassesOk, MoveAllowed, ChangeAllowed, AfterMove, AfterChange;
    StepKeepsPassesOk(s, event);
    match event
    case ByPass(id, move) =>
      if Homeless(s) {
        MoveFindsHome(s, id, move);
      } else {
        var node :| AtHome(s, node);
        MoveStaysHome(s, id, move, node);
      }
    case Outside(change) =>
      if Homeless(s) {
        ChangeStaysHome(s, change, Scheduler.NodeId(0));
      } else {
        var node :| AtHome(s, node);
        ChangeStaysHome(s, change, node);
      }
  }

  lemma {:induction false} RunKeepsInv(states: seq<State>, events: seq<Event>, i: nat)
    requires Run(states, events) && i < |states| && Managed(states[0].row) != []
    ensures states[i].row.mounts == states[0].row.mounts && Inv(states[i])
  {
    hide After, Allowed, Inv;
    if i == 0 {
      InitialInv(states[0]);
    } else {
      RunKeepsInv(states, events, i - 1);
      StepKeepsInv(states[i - 1], events[i - 1]);
      NodeIsWrittenOnce(states[i - 1], events[i - 1]);
    }
  }

  lemma InitialInv(s: State)
    requires Initial(s)
    ensures Inv(s)
  {
  }

  // ---------------------------------------------------------------------------------------------------------------
  // What holds in every run, however its passes interleave.

  /** In every state all workloads share one node, and every managed volume that still exists is bound to it. */
  lemma OneNodeForever(states: seq<State>, events: seq<Event>, i: nat)
    requires Run(states, events) && i < |states| && Managed(states[0].row) != []
    ensures forall w :: w in states[i].rows ==>
              && AllBoundTo(states[0].row.mounts, states[i].volumes, states[i].rows[w].node)
              && forall w' :: w' in states[i].rows ==> states[i].rows[w'].node == states[i].rows[w].node
  {
    hide Run, PassesOk;
    RunKeepsInv(states, events, i);
  }

  /** A managed volume bound to a node keeps that node as long as it exists. */
  lemma {:induction false} BoundOnce(states: seq<State>, events: seq<Event>, i: nat, j: nat, v: VolumeId)
    requires Run(states, events) && i <= j < |states| && Managed(states[0].row) != []
    requires v in Managed(states[0].row) && v in states[j].volumes
    ensures v in states[i].volumes
    ensures states[i].volumes[v].node.Some? ==> states[j].volumes[v].node == states[i].volumes[v].node
  {
    hide After, Allowed, Inv;
    if i < j {
      RunKeepsInv(states, events, j - 1);
      NodeIsWrittenOnce(states[j - 1], events[j - 1]);
      BoundOnce(states, events, i, j - 1, v);
    }
  }

  /** A pass retries at most once in all, and never once it has created a workload. */
  lemma RetriesOnce(states: seq<State>, events: seq<Event>, i: nat, id: PassId)
    requires Run(states, events) && i < |states| && Managed(states[0].row) != [] && id in states[i].passes
    ensures states[i].passes[id].retries <= 1
    ensures states[i].passes[id].index > 0 && i + 1 < |states| && id in states[i + 1].passes ==>
              states[i + 1].passes[id].retries == states[i].passes[id].retries
  {
    RunKeepsInv(states, events, i);
    if states[i].passes[id].index > 0 && i + 1 < |states| && id in states[i + 1].passes {
      NoRetryAfterPlacement(states[i], events[i], id);
    }
  }

  lemma NoRetryAfterPlacement(s: State, event: Event, id: PassId)
    requires Inv(s) && Managed(s.row) != [] && Allowed(s, event) && id in s.passes && id in After(s, event).passes
    requires s.passes[id].index > 0
    ensures After(s, event).passes[id].retries == s.passes[id].retries
  {
    hide Settled, AfterMove, MoveAllowed;
    if event.ByPass? {
      if event.id == id {
        OnlyClaimsRetry(s, id, s.passes[id], event.move);
      } else {
        MoveKeepsOthers(s, event.id, s.passes[event.id], event.move, id);
      }
    }
  }

  lemma OnlyClaimsRetry(s: State, id: PassId, pass: Pass, move: Move)
    requires PassOk(s.row.mounts, s.volumes, pass) && MoveAllowed(s, id, pass, move) && pass.index > 0
    ensures id in AfterMove(s, id, pass, move).passes ==>
              AfterMove(s, id, pass, move).passes[id].retries == pass.retries
  {
    hide AfterReadClaims, BoundNodes, Scheduler.Decides, VolumesUsable, HasReplacement, ActiveIds, Missing;
    hide UnhealthyIds, Bind, AllBoundTo, AllBound, BackoffMs;
    if move.ReadClaims? {
      ClaimsAgree(s, pass);
    }
  }

  lemma ClaimsAgree(s: State, pass: Pass)
    requires PassOk(s.row.mounts, s.volumes, pass) && pass.pc == ReadingClaims && pass.index > 0
    ensures AfterReadClaims(s, pass).retries == pass.retries
  {
    var nodes := BoundNodes(pass.row, s.volumes);
    assert forall n :: n in nodes ==> n == pass.target;
    if |nodes| == 1 {
      assert Only(nodes) in nodes;
    }
  }
}
