/** A deployment with any volumes keeps all its workloads on one node when lease holders make the placements. */
module ReconcilerHome {
  import opened Wrappers
  import opened Lifecycle
  import opened Reconciler
  import opened ReconcilerLease
  import opened ReconcilerReplicas
  import ReconcilerAffinity
  import Scheduler

  /** Volumes that are configured by name only: nothing but the stored requirements ties them to a node. */
  predicate NamedOnly(row: Deployment) { Persistent(row) && Managed(row) == [] }

  ghost predicate PinnedHome(s: State) {
    forall w :: w in s.rows ==> s.row.requirements.requiredNode == Some(s.rows[w].node)
  }

  /** A pass at work plans with the stored node affinity and places on it. */
  ghost predicate Follows(s: State, pass: Pass) {
    && (pass.pc != Begun && pass.pc != Claimed && PhaseOf(pass.pc) != Over ==>
          pass.requirements.requiredNode == s.row.requirements.requiredNode)
    && (pass.pc == Placing && pass.requirements.requiredNode.Some? ==>
        pass.target == pass.requirements.requiredNode.value)
    && TakesNoClaims(pass)
  }

  /** No pass of such a deployment comes to the statements about managed volumes. */
  ghost predicate TakesNoClaims(pass: Pass) {
    && (pass.pc == Claimed || PhaseOf(pass.pc) == Over || Managed(pass.row) == [])
    && (!pass.pc.ClaimingVolumes? && !pass.pc.ReadingClaims? && !pass.pc.SavingNode? && !pass.pc.SavingRetry?
        && !pass.pc.SavingPin? && !pass.pc.CheckingVolumes?)
  }

  ghost predicate HomeInv(s: State) {
    && PinnedHome(s)
    && (forall id :: id in s.passes ==> TakesNoClaims(s.passes[id]))
    && forall id :: id in s.passes && (s.passes[id].pc == Begun || Holds(s, id)) ==> Follows(s, s.passes[id])
  }

  /** What a move writes of the stored affinity: only the first placement pins it. */
  lemma OwnMove(s: State, id: PassId, pass: Pass, move: Move)
    requires MoveAllowed(s, id, pass, move) && NamedOnly(s.row) && SameConfig(pass.row, s.row)
    requires PinnedHome(s) && Follows(s, pass)
    ensures var s' := AfterMove(s, id, pass, move);
            PinnedHome(s') && (id in s'.passes ==> Follows(s', s'.passes[id]))
  {
    hide AfterMove, PinnedHome, Follows, NamedOnly, SameConfig, Scheduler.Decides;
    match move
    case Schedule(nodes, decision) => ScheduleFollows(s, id, pass, nodes, decision);
    case Place(_, _) => PlaceFollows(s, id, pass, move);
    case _ => OtherFollows(s, id, pass, move);
  }

  lemma PlaceFollows(s: State, id: PassId, pass: Pass, move: Move)
    requires MoveAllowed(s, id, pass, move) && move.Place? && NamedOnly(s.row) && SameConfig(pass.row, s.row)
    requires PinnedHome(s) && Follows(s, pass)
    ensures var s' := AfterMove(s, id, pass, move);
            PinnedHome(s') && (id in s'.passes ==> Follows(s', s'.passes[id]))
  {
    hide HasReplacement, BackoffMs, RecoveryAttempt;
  }

  lemma OtherFollows(s: State, id: PassId, pass: Pass, move: Move)
    requires MoveAllowed(s, id, pass, move) && !move.Place? && !move.Schedule? && NamedOnly(s.row)
    requires SameConfig(pass.row, s.row) && PinnedHome(s) && Follows(s, pass)
    ensures var s' := AfterMove(s, id, pass, move);
            PinnedHome(s') && (id in s'.passes ==> Follows(s', s'.passes[id]))
  {
    hide AfterMove, MoveAllowed, PinnedHome, TakesNoClaims, NamedOnly, SameConfig;
    IdleMove(s, id, pass, move);
    if id in AfterMove(s, id, pass, move).passes {
      OwnAffinity(s, id, pass, move);
    }
  }

  /**
   * The affinity a pass plans with: the stored one once it has read the row, and nothing changes it but a placement.
   */
  lemma OwnAffinity(s: State, id: PassId, pass: Pass, move: Move)
    requires MoveAllowed(s, id, pass, move) && !move.Place? && !move.Schedule? && TakesNoClaims(pass)
    requires id in AfterMove(s, id, pass, move).passes
    ensures var pass' := AfterMove(s, id, pass, move).passes[id];
            && (pass'.pc == Placing ==> pass.pc == Placing && pass'.target == pass.target)
            && (pass'.pc != Begun && pass'.pc != Claimed && PhaseOf(pass'.pc) != Over ==>
                  if move.ReadRow? then pass'.requirements.requiredNode == s.row.requirements.requiredNode
                  else pass.pc != Begun && pass.pc != Claimed && PhaseOf(pass.pc) != Over
                       && pass'.requirements.requiredNode == pass.requirements.requiredNode)
  {
    hide UnhealthyIds, ActiveIds, Missing, RecoveryAttempt, Bind, AfterReadClaims, AfterCheckVolumes, AfterPlace;
    hide AfterSchedule, Scheduler.Decides, Managed, FixedPortsRefused;
  }

  lemma ScheduleFollows(s: State, id: PassId, pass: Pass, nodes: set<Scheduler.Node>, decision: Option<NodeId>)
    requires pass.pc == ChoosingNode && Scheduler.Decides(nodes, pass.requirements, decision)
    requires NamedOnly(s.row) && SameConfig(pass.row, s.row) && PinnedHome(s) && Follows(s, pass)
    ensures var s' := AfterMove(s, id, pass, Schedule(nodes, decision));
            PinnedHome(s') && id in s'.passes && Follows(s', s'.passes[id])
  {
    if pass.requirements.requiredNode.Some? {
      Scheduler.PinnedDecision(nodes, pass.requirements, pass.requirements.requiredNode.value, decision);
    }
    hide Scheduler.Decides;
  }

  /** A move that places nothing leaves the stored requirements and the nodes of the workloads alone. */
  lemma IdleMove(s: State, id: PassId, pass: Pass, move: Move)
    requires MoveAllowed(s, id, pass, move) && TakesNoClaims(pass) && !move.Place?
    requires NamedOnly(s.row) && SameConfig(pass.row, s.row)
    ensures AfterMove(s, id, pass, move).row.requirements == s.row.requirements
    ensures id in AfterMove(s, id, pass, move).passes ==> TakesNoClaims(AfterMove(s, id, pass, move).passes[id])
    ensures PinnedHome(s) ==> PinnedHome(AfterMove(s, id, pass, move))
  {
    hide AfterMove, TakesNoClaims, NamedOnly, SameConfig, Scheduler.Decides;
    RequirementsStay(s, id, pass, move);
    StaysOffClaims(s, id, pass, move);
    MoveOnRows(s, id, pass, move);
  }

  lemma RequirementsStay(s: State, id: PassId, pass: Pass, move: Move)
    requires MoveAllowed(s, id, pass, move) && TakesNoClaims(pass) && !move.Place?
    ensures AfterMove(s, id, pass, move).row.requirements == s.row.requirements
  {
    hide AfterReadRow, AfterReadWorkloads, AfterCheckVolumes, AfterDecide, AfterCheckRecovery, AfterSchedule;
    hide AfterReadClaims, AfterPlace, Bind, Scheduler.Decides, RecoveryAttempt, Managed;
  }

  lemma StaysOffClaims(s: State, id: PassId, pass: Pass, move: Move)
    requires MoveAllowed(s, id, pass, move) && TakesNoClaims(pass) && !move.Place?
    requires NamedOnly(s.row) && SameConfig(pass.row, s.row)
    ensures id in AfterMove(s, id, pass, move).passes ==> TakesNoClaims(AfterMove(s, id, pass, move).passes[id])
  {
    hide UnhealthyIds, ActiveIds, Missing, RecoveryAttempt, Bind, AfterReadClaims, AfterCheckVolumes, AfterPlace;
    hide WithFixedPorts, FixedPortsRefused, Scheduler.Decides, Persistent;
  }

  lemma ChangeKeepsHomeInv(s: State, change: Change)
    requires HomeInv(s) && ChangeAllowed(s, change) && NamedOnly(s.row)
    ensures HomeInv(AfterChange(s, change))
  {
    hide Bind;
    ChangeKeepsLease(s, change);
  }

  lemma MoveKeepsHomeInv(s: State, id: PassId, move: Move)
    requires HomeInv(s) && SnapshotConfig(s) && NamedOnly(s.row) && Allowed(s, ByPass(id, move))
    requires PlacesAsHolder(s, ByPass(id, move))
    ensures HomeInv(After(s, ByPass(id, move)))
  {
    hide AfterMove, MoveAllowed, PinnedHome, Follows, TakesNoClaims, PlacesAsHolder, NamedOnly, SnapshotConfig;
    var s' := After(s, ByPass(id, move));
    OwnAfter(s, id, move);
    forall other | other in s'.passes
      ensures TakesNoClaims(s'.passes[other])
      ensures s'.passes[other].pc == Begun || Holds(s', other) ==> Follows(s', s'.passes[other])
    {
      if other != id {
        OtherAfter(s, id, move, other);
      }
    }
  }

  lemma OwnAfter(s: State, id: PassId, move: Move)
    requires HomeInv(s) && SnapshotConfig(s) && NamedOnly(s.row) && Allowed(s, ByPass(id, move))
    requires PlacesAsHolder(s, ByPass(id, move))
    ensures var s' := After(s, ByPass(id, move));
            && PinnedHome(s')
            && (id in s'.passes ==>
                  && TakesNoClaims(s'.passes[id])
                  && (s'.passes[id].pc == Begun || Holds(s', id) ==> Follows(s', s'.passes[id])))
  {
    hide AfterMove, PinnedHome, TakesNoClaims, LeaseFree, NamedOnly, SameConfig, Scheduler.Decides;
    MoveOnLease(s, id, s.passes[id], move);
    if !move.Place? {
      IdleMove(s, id, s.passes[id], move);
    }
    if s.passes[id].pc == Begun || Holds(s, id) {
      OwnMove(s, id, s.passes[id], move);
    }
  }

  lemma OtherAfter(s: State, id: PassId, move: Move, other: PassId)
    requires HomeInv(s) && SnapshotConfig(s) && NamedOnly(s.row) && Allowed(s, ByPass(id, move))
    requires PlacesAsHolder(s, ByPass(id, move)) && other != id && other in After(s, ByPass(id, move)).passes
    ensures var s' := After(s, ByPass(id, move));
            && TakesNoClaims(s'.passes[other])
            && (s'.passes[other].pc == Begun || Holds(s', other) ==> Follows(s', s'.passes[other]))
  {
    hide AfterMove, MoveAllowed, PinnedHome, TakesNoClaims, LeaseFree, NamedOnly, SameConfig;
    MoveKeepsOthers(s, id, s.passes[id], move, other);
    MoveOnLease(s, id, s.passes[id], move);
    if !move.Place? {
      IdleMove(s, id, s.passes[id], move);
    }
  }

  lemma {:induction false} RunKeepsHomeInv(states: seq<State>, events: seq<Event>, i: nat)
    requires Run(states, events) && i < |states| && HolderRun(states, events, i) && NamedOnly(states[0].row)
    ensures HomeInv(states[i])
  {
    hide After, Allowed, HomeInv, PlacesAsHolder, NamedOnly;
    if i == 0 {
      EmptyHome(states[0]);
    } else {
      RunKeepsHomeInv(states, events, i - 1);
      RunKeepsFreeInv(states, events, i - 1);
      FreeHasConfig(states[i - 1]);
      SameNamedOnly(states[0].row, states[i - 1].row);
      match events[i - 1]
      case ByPass(id, move) => MoveKeepsHomeInv(states[i - 1], id, move);
      case Outside(change) =>
        assert ChangeAllowed(states[i - 1], change) by { Unfold(states[i - 1], change); }
        ChangeKeepsHomeInv(states[i - 1], change);
        Unfold(states[i - 1], change);
    }
  }

  lemma Unfold(s: State, change: Change)
    requires Allowed(s, Outside(change))
    ensures ChangeAllowed(s, change) && After(s, Outside(change)) == AfterChange(s, change)
  {
    hide ChangeAllowed, AfterChange;
  }

  lemma EmptyHome(s: State)
    requires Initial(s)
    ensures HomeInv(s)
  {
  }

  lemma SameNamedOnly(a: Deployment, b: Deployment)
    requires SameConfig(a, b)
    ensures NamedOnly(a) == NamedOnly(b) && Managed(a) == Managed(b) && Persistent(a) == Persistent(b)
  {
  }

  /** All workloads ever created for a deployment with volumes, managed or not, are on one node. */
  lemma VolumesStayOnOneNode(states: seq<State>, events: seq<Event>, i: nat)
    requires Run(states, events) && i < |states| && HolderRun(states, events, i) && Persistent(states[0].row)
    ensures forall w, w' :: w in states[i].rows && w' in states[i].rows ==>
              states[i].rows[w].node == states[i].rows[w'].node
  {
    hide Run, HolderRun;
    if Managed(states[0].row) == [] {
      RunKeepsHomeInv(states, events, i);
    } else {
      ReconcilerAffinity.OneNodeForever(states, events, i);
    }
  }
}
