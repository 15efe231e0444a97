/** Passes that finish within their lease never want more workloads running than the deployment has replicas. */
module ReconcilerReplicas {
  import opened Lifecycle
  import opened Reconciler
  import opened ReconcilerLease
  import Ports
  import Scheduler

  // ---------------------------------------------------------------------------------------------------------------
  // Facts that need no lease.

  /** No workload comes back to desired running, and none changes its node or vanishes. */
  ghost predicate NoneRevived(before: Rows, after: Rows) {
    && before.Keys <= after.Keys
    && forall w :: w in before ==>
         after[w].node == before[w].node
             && (after[w].desired == Desired.Running ==> before[w].desired == Desired.Running)
  }

  /** Only a placement writes new rows, and only a retirement changes rows. */
  lemma MoveOnRows(s: State, id: PassId, pass: Pass, move: Move)
    requires MoveAllowed(s, id, pass, move)
    ensures AfterMove(s, id, pass, move).rows ==
      match move
      case Place(w, _) => s.rows[w := NewWorkload(pass.target)]
      case Retire(w) => s.rows[w := s.rows[w].(desired := pass.pc.kind)]
      case _ => s.rows
  {
    hide BoundNodes, VolumesUsable, UnhealthyIds, ActiveIds, Missing, HasReplacement, BackoffMs, Scheduler.Decides;
    hide Bind, FixedPortsRefused, PlacedRequirements;
    hide AfterReadRow, AfterReadWorkloads, AfterCheckVolumes, AfterDecide, AfterCheckRecovery, AfterSchedule;
    hide AfterReadClaims;
  }

  /** A pass only ever retires to a state other than running. */
  ghost predicate RetiresOnly(s: State) {
    forall id :: id in s.passes && s.passes[id].pc.Retiring? ==> s.passes[id].pc.kind != Desired.Running
  }

  /** No stateless workload is both lost and wanted running. */
  ghost predicate LostIsRetired(s: State) {
    !Persistent(s.row) ==> forall w :: w in s.rows && s.rows[w].actual == Actual.Lost ==>
        s.rows[w].desired != Desired.Running
  }

  /** The failure counter only stands above zero while the health is unhealthy or unknown. */
  ghost predicate FailuresShow(s: State) {
    forall w :: w in s.rows ==> CountedUnhealthy(s.rows[w])
  }

  /** A deployment with fixed host ports and several replicas never gets a workload. */
  ghost predicate FixedPortsHold(s: State) {
    FixedPortsRefused(s.row) ==> s.rows == map[] && forall id :: id in s.passes ==> FixedPortsBarred(s.passes[id])
  }

  ghost predicate FixedPortsBarred(pass: Pass) {
    (pass.pc.Begun? || pass.pc.Claimed? || pass.pc.HasRow? || pass.pc.Done?) || pass.pc.Retiring?
  }

  ghost predicate FreeInv(s: State) {
    RetiresOnly(s) && LostIsRetired(s) && FailuresShow(s) && FixedPortsHold(s) && SnapshotConfig(s)
  }

  ghost predicate SnapshotConfig(s: State) {
    forall id :: id in s.passes ==> SameConfig(s.passes[id].row, s.row)
  }

  lemma MoveKeepsRowFacts(s: State, id: PassId, move: Move)
    requires FreeInv(s) && Allowed(s, ByPass(id, move))
    ensures LostIsRetired(After(s, ByPass(id, move))) && FailuresShow(After(s, ByPass(id, move)))
    ensures NoneRevived(s.rows, After(s, ByPass(id, move)).rows)
  {
    hide AfterMove;
    MoveOnRows(s, id, s.passes[id], move);
    MoveKeepsConfig(s, id, s.passes[id], move);
  }

  lemma ChangeKeepsRowFacts(s: State, change: Change)
    requires FreeInv(s) && ChangeAllowed(s, change)
    ensures LostIsRetired(AfterChange(s, change)) && FailuresShow(AfterChange(s, change))
    ensures NoneRevived(s.rows, AfterChange(s, change).rows)
    ensures SameConfig(AfterChange(s, change).row, s.row)
  {
    ChangeKeepsFacts(s, change);
    hide Bind, LostIsRetired, FailuresShow;
  }

  lemma ChangeKeepsFacts(s: State, change: Change)
    requires FreeInv(s) && ChangeAllowed(s, change)
    ensures LostIsRetired(AfterChange(s, change)) && FailuresShow(AfterChange(s, change))
  {
    hide Bind, FixedPortsHold, SnapshotConfig, RetiresOnly;
  }

  lemma OwnPcFacts(s: State, id: PassId, pass: Pass, move: Move)
    requires MoveAllowed(s, id, pass, move) && SameConfig(pass.row, s.row)
    requires pass.pc.Retiring? ==> pass.pc.kind != Desired.Running
    ensures var s' := AfterMove(s, id, pass, move);
            id in s'.passes ==>
              && (s'.passes[id].pc.Retiring? ==> s'.passes[id].pc.kind != Desired.Running)
              && (FixedPortsRefused(s.row) && FixedPortsBarred(pass) ==> FixedPortsBarred(s'.passes[id]))
    ensures FixedPortsBarred(pass) ==> !move.Place?
  {
    hide AfterMove, SameConfig, FixedPortsRefused;
    RetiresToStop(s, id, pass, move);
    BarredStaysBarred(s, id, pass, move);
  }

  lemma RetiresToStop(s: State, id: PassId, pass: Pass, move: Move)
    requires MoveAllowed(s, id, pass, move) && (pass.pc.Retiring? ==> pass.pc.kind != Desired.Running)
    ensures var s' := AfterMove(s, id, pass, move);
            id in s'.passes && s'.passes[id].pc.Retiring? ==> s'.passes[id].pc.kind != Desired.Running
  {
    hide BoundNodes, VolumesUsable, UnhealthyIds, ActiveIds, Missing, RowAfterPlace, Scheduler.Decides, Bind, Pinned;
    hide PlacedRequirements, RecoveryAttempt, HasReplacement, Managed, FixedPortsRefused, WithFixedPorts;
  }

  lemma BarredStaysBarred(s: State, id: PassId, pass: Pass, move: Move)
    requires MoveAllowed(s, id, pass, move) && SameConfig(pass.row, s.row)
    ensures FixedPortsBarred(pass) ==> !move.Place?
    ensures var s' := AfterMove(s, id, pass, move);
            id in s'.passes && FixedPortsRefused(s.row) && FixedPortsBarred(pass) ==> FixedPortsBarred(s'.passes[id])
  {
    hide AfterCheckVolumes, AfterDecide, AfterCheckRecovery, AfterSchedule, AfterReadClaims, AfterPlace;
    hide Scheduler.Decides;
    hide Bind, RecoveryAttempt;
  }

  lemma SameRefusal(a: Deployment, b: Deployment)
    requires SameConfig(a, b)
    ensures FixedPortsRefused(a) == FixedPortsRefused(b)
  {
  }

  lemma BegunIsBarred(passes: map<PassId, Pass>)
    ensures forall id :: id in passes && passes[id].pc == Begun ==> FixedPortsBarred(passes[id])
  {
  }

  lemma MoveKeepsFreeInv(s: State, id: PassId, move: Move)
    requires FreeInv(s) && Allowed(s, ByPass(id, move))
    ensures FreeInv(After(s, ByPass(id, move)))
  {
    hide AfterMove, FixedPortsRefused, FixedPortsBarred, LostIsRetired, FailuresShow;
    var s', pass := After(s, ByPass(id, move)), s.passes[id];
    MoveKeepsRowFacts(s, id, move);
    MoveKeepsConfig(s, id, pass, move);
    OwnPcFacts(s, id, pass, move);
    MoveOnRows(s, id, pass, move);
    SameRefusal(s.row, s'.row);
    forall other | other in s'.passes
      ensures SameConfig(s'.passes[other].row, s'.row)
      ensures s'.passes[other].pc.Retiring? ==> s'.passes[other].pc.kind != Desired.Running
      ensures FixedPortsRefused(s.row) ==> FixedPortsBarred(s'.passes[other])
    {
      if other == id {
        MoveKeepsSnapshot(s, id, pass, move);
      } else {
        MoveKeepsOthers(s, id, pass, move, other);
      }
    }
  }

  lemma ChangeKeepsFreeInv(s: State, change: Change)
    requires FreeInv(s) && ChangeAllowed(s, change)
    ensures FreeInv(AfterChange(s, change))
  {
    hide FixedPortsRefused, FixedPortsBarred, LostIsRetired, FailuresShow, Bind;
    var s' := AfterChange(s, change);
    ChangeKeepsRowFacts(s, change);
    SameRefusal(s.row, s'.row);
    BegunIsBarred(s'.passes);
  }

  /** Kept in every run, with or without the lease. */
  lemma StepKeepsFreeInv(s: State, event: Event)
    requires FreeInv(s) && Allowed(s, event)
    ensures FreeInv(After(s, event)) && NoneRevived(s.rows, After(s, event).rows)
              && SameConfig(After(s, event).row, s.row)
  {
    hide AfterMove, AfterChange, MoveAllowed, ChangeAllowed, NoneRevived;
    match event
    case ByPass(id, move) =>
      MoveKeepsFreeInv(s, id, move);
      MoveKeepsRowFacts(s, id, move);
      MoveKeepsConfig(s, id, s.passes[id], move);
    case Outside(change) =>
      ChangeKeepsFreeInv(s, change);
      ChangeKeepsRowFacts(s, change);
  }

  // ---------------------------------------------------------------------------------------------------------------
  // The replica bound.

  datatype Phase = BeforeRows | BeforeLoop | BetweenPlacements | InPlacement | Over

  function PhaseOf(pc: Pc): Phase {
    match pc
    case Begun => BeforeRows
    case Claimed => BeforeRows
    case HasRow => BeforeRows
    case CheckingVolumes => BeforeLoop
    case SavingNode => BeforeLoop
    case Deciding => BeforeLoop
    case Resetting => BeforeLoop
    case LoopTop => BetweenPlacements
    case Retiring(_, _) => Over
    case Done => Over
    case _ => InPlacement
  }

  /** What a working pass knows: wanted workloads are the active ones it read and the ones it created. */
  ghost predicate Accounts(rows: Rows, pass: Pass) {
    var active := ActiveIds(pass.rows, Persistent(pass.row));
    && pass.created <= rows.Keys
    && match PhaseOf(pass.pc)
       case BeforeRows => pass.index == 0 && pass.created == {}
       case BeforeLoop => pass.index == 0 && pass.created == {} && RunningIds(rows) <= active
       case BetweenPlacements => Replacing(rows, pass.row.replicas, pass.created, pass.index, pass.missing, active)
           && pass.index <= pass.missing
       case InPlacement => Replacing(rows, pass.row.replicas, pass.created, pass.index, pass.missing, active)
           && pass.index < pass.missing
       case Over => true
  }

  ghost predicate Replacing(rows: Rows, replicas: nat, created: set<WorkloadId>, index: nat, missing: nat,
                            active: set<WorkloadId>) {
    |created| == index && RunningIds(rows) <= active + created && |active| + missing <= replicas
  }

  ghost predicate Bounded(s: State) { |RunningIds(s.rows)| <= s.row.replicas }


  lemma NoneRevivedShrinks(before: Rows, after: Rows)
    requires NoneRevived(before, after) && after.Keys == before.Keys
    ensures RunningIds(after) <= RunningIds(before)
    ensures |RunningIds(after)| <= |RunningIds(before)|
  {
    Subset(RunningIds(after), RunningIds(before));
  }

  lemma {:induction false} Subset<T>(a: set<T>, b: set<T>)
    requires a <= b
    ensures |a| <= |b|
  {
    if a != {} {
      var x :| x in a;
      Subset(a - {x}, b - {x});
    }
  }

  lemma UnionBound<T>(a: set<T>, b: set<T>)
    ensures |a + b| <= |a| + |b|
  {
    assert a + b == a + (b - a);
    assert a !! (b - a);
    Subset(b - a, b);
  }

  /** A placement stays within the replicas because the pass still had one missing. */
  lemma PlaceKeepsBound(s: State, pass: Pass, w: WorkloadId)
    requires Accounts(s.rows, pass) && pass.pc == Placing && w !in s.rows && SameConfig(pass.row, s.row)
    ensures var rows := s.rows[w := NewWorkload(pass.target)];
            && |RunningIds(rows)| <= s.row.replicas
            && RunningIds(rows) <= ActiveIds(pass.rows, Persistent(pass.row)) + (pass.created + {w})
  {
    var rows := s.rows[w := NewWorkload(pass.target)];
    var active := ActiveIds(pass.rows, Persistent(pass.row));
    assert RunningIds(rows) <= RunningIds(s.rows) + {w};
    Subset(RunningIds(rows), active + (pass.created + {w}));
    UnionBound(active, pass.created + {w});
    UnionBound(pass.created, {w});
  }

  lemma ShrinkKeepsAccounts(before: Rows, after: Rows, pass: Pass)
    requires NoneRevived(before, after) && after.Keys == before.Keys && Accounts(before, pass)
    ensures Accounts(after, pass)
  {
    NoneRevivedShrinks(before, after);
  }

  /**
   * When the rows are read, the workloads wanted running are exactly the active ones: no lost stateless one is
   * wanted.
   */
  lemma WantedIsActive(s: State, row: Deployment)
    requires LostIsRetired(s) && SameConfig(row, s.row)
    ensures RunningIds(s.rows) == ActiveIds(s.rows, Persistent(row))
  {
  }

  lemma ReadKeepsAccounts(s: State, pass: Pass)
    requires Accounts(s.rows, pass) && LostIsRetired(s) && SameConfig(pass.row, s.row) && pass.pc == HasRow
    ensures Accounts(s.rows, AfterReadWorkloads(s, pass))
  {
    hide FixedPortsRefused, WithFixedPorts, RunningIds, ActiveIds, LostIsRetired, Managed;
    WantedIsActive(s, pass.row);
  }

  lemma DecideKeepsAccounts(s: State, pass: Pass)
    requires Accounts(s.rows, pass) && pass.pc == Deciding
    ensures Accounts(s.rows, AfterDecide(pass))
  {
    hide UnhealthyIds, RunningIds, ActiveIds, Persistent;
  }

  lemma CheckKeepsAccounts(s: State, pass: Pass)
    requires Accounts(s.rows, pass) && pass.pc == LoopTop
    ensures Accounts(s.rows, AfterCheckRecovery(s, pass))
  {
    hide RunningIds, ActiveIds, Persistent, Replacing;
  }

  lemma PlaceKeepsAccounts(s: State, id: PassId, pass: Pass, w: WorkloadId, at: Time)
    requires Accounts(s.rows, pass) && pass.pc == Placing && w !in s.rows && SameConfig(pass.row, s.row)
    ensures var s' := AfterPlace(s, id, pass, w, at);
            id in s'.passes && Accounts(s'.rows, s'.passes[id])
  {
    hide RunningIds, ActiveIds, Persistent, PlacedRequirements, HasReplacement, RowAfterPlace, RecoveryAttempt;
    hide BackoffMs;
    PlaceKeepsBound(s, pass, w);
  }

  predicate Quiet(move: Move) { !move.ReadRow? && !move.ReadWorkloads? && !move.Place? && !move.Decide?
                  && !move.CheckRecovery? && !move.Retire? }

  /** The other moves stay in their phase, fall back to the loop's top, or end the pass. */
  lemma QuietMove(s: State, id: PassId, pass: Pass, move: Move)
    requires MoveAllowed(s, id, pass, move) && Quiet(move) && id in AfterMove(s, id, pass, move).passes
    ensures var pass' := AfterMove(s, id, pass, move).passes[id];
            && pass'.row == pass.row && pass'.rows == pass.rows && pass'.created == pass.created
            && pass'.index == pass.index && pass'.missing == pass.missing && pass'.checkedAt == pass.checkedAt
            && pass'.pc != HasRow && pass'.pc != Resetting
            && (PhaseOf(pass'.pc) == PhaseOf(pass.pc) || PhaseOf(pass'.pc) == Over
                || (PhaseOf(pass'.pc) == BetweenPlacements && PhaseOf(pass.pc) == InPlacement))
    ensures AfterMove(s, id, pass, move).rows == s.rows
  {
    hide BoundNodes, VolumesUsable, Scheduler.Decides, Bind, Pinned, Managed;
  }

  lemma OwnAccounts(s: State, id: PassId, pass: Pass, move: Move)
    requires MoveAllowed(s, id, pass, move) && Accounts(s.rows, pass) && LostIsRetired(s) && SameConfig(pass.row, s.row)
    requires !move.Retire?
    ensures var s' := AfterMove(s, id, pass, move);
            id in s'.passes ==> Accounts(s'.rows, s'.passes[id])
  {
    hide AfterReadWorkloads, AfterDecide, AfterCheckRecovery, AfterPlace, RunningIds, ActiveIds, LostIsRetired;
    hide Persistent;
    match move
    case ReadRow =>
    case ReadWorkloads => ReadKeepsAccounts(s, pass);
    case Decide => DecideKeepsAccounts(s, pass);
    case CheckRecovery => CheckKeepsAccounts(s, pass);
    case Place(w, at) => PlaceKeepsAccounts(s, id, pass, w, at);
    case _ => QuietKeepsAccounts(s, id, pass, move);
  }

  lemma QuietKeepsAccounts(s: State, id: PassId, pass: Pass, move: Move)
    requires MoveAllowed(s, id, pass, move) && Accounts(s.rows, pass) && Quiet(move)
    ensures var s' := AfterMove(s, id, pass, move);
            id in s'.passes ==> Accounts(s'.rows, s'.passes[id])
  {
    hide AfterMove, MoveAllowed, PhaseOf, RunningIds, ActiveIds, Persistent, Replacing;
    if id in AfterMove(s, id, pass, move).passes {
      QuietMove(s, id, pass, move);
    }
  }

  /** The stored lease is the pass's. */
  predicate Holds(s: State, id: PassId) { s.row.lease.Some? && s.row.lease.value.holder == id }

  /** The only condition on timing the replica bound needs: a pass that places still holds the stored lease. */
  ghost predicate PlacesAsHolder(s: State, event: Event) {
    event.ByPass? && event.move.Place? ==> Holds(s, event.id)
  }

  /** The lease holder's accounts are right, and those of passes that have not read anything yet. */
  ghost predicate HolderInv(s: State) {
    && FreeInv(s) && Bounded(s)
    && forall id :: id in s.passes && (s.passes[id].pc == Begun || Holds(s, id)) ==> Accounts(s.rows, s.passes[id])
  }

  lemma MoveKeepsBounded(s: State, id: PassId, move: Move)
    requires HolderInv(s) && Allowed(s, ByPass(id, move)) && PlacesAsHolder(s, ByPass(id, move))
    ensures Bounded(After(s, ByPass(id, move)))
  {
    hide AfterMove, FreeInv, RunningIds;
    var pass, s' := s.passes[id], After(s, ByPass(id, move));
    FreeHasConfig(s);
    MoveOnRows(s, id, pass, move);
    MoveKeepsConfig(s, id, pass, move);
    MoveKeepsRowFacts(s, id, move);
    if move.Place? {
      PlaceKeepsBound(s, pass, move.w);
    } else {
      NoneRevivedShrinks(s.rows, s'.rows);
    }
  }

  lemma FreeHasConfig(s: State)
    requires FreeInv(s)
    ensures SnapshotConfig(s) && LostIsRetired(s)
  {
  }

  lemma RetireKeepsAccounts(s: State, id: PassId, pass: Pass, move: Move)
    requires MoveAllowed(s, id, pass, move) && Accounts(s.rows, pass) && move.Retire?
    ensures id in AfterMove(s, id, pass, move).passes
    ensures Accounts(AfterMove(s, id, pass, move).rows, AfterMove(s, id, pass, move).passes[id])
  {
    hide RunningIds, ActiveIds;
  }

  /** A pass is the holder after its move only if it was before, or has just claimed. */
  lemma OwnHolderAccounts(s: State, id: PassId, move: Move)
    requires HolderInv(s) && Allowed(s, ByPass(id, move)) && id in After(s, ByPass(id, move)).passes
    requires Holds(After(s, ByPass(id, move)), id)
    ensures Accounts(After(s, ByPass(id, move)).rows, After(s, ByPass(id, move)).passes[id])
  {
    hide AfterMove, FreeInv, Bounded, Accounts, LeaseFree;
    FreeHasConfig(s);
    MoveOnLease(s, id, s.passes[id], move);
    if move.Retire? {
      RetireKeepsAccounts(s, id, s.passes[id], move);
    } else {
      OwnAccounts(s, id, s.passes[id], move);
    }
  }

  /** A move of another pass leaves the holder's accounts right: only the holder adds rows. */
  lemma OtherHolderAccounts(s: State, id: PassId, move: Move, other: PassId)
    requires HolderInv(s) && Allowed(s, ByPass(id, move)) && PlacesAsHolder(s, ByPass(id, move))
    requires other != id && other in After(s, ByPass(id, move)).passes
    requires After(s, ByPass(id, move)).passes[other].pc == Begun || Holds(After(s, ByPass(id, move)), other)
    ensures Accounts(After(s, ByPass(id, move)).rows, After(s, ByPass(id, move)).passes[other])
  {
    hide AfterMove, FreeInv, Bounded, RunningIds, LeaseFree;
    var pass, s' := s.passes[id], After(s, ByPass(id, move));
    MoveKeepsOthers(s, id, pass, move, other);
    MoveOnRows(s, id, pass, move);
    MoveOnLease(s, id, pass, move);
    MoveKeepsRowFacts(s, id, move);
    if s.passes[other].pc != Begun {
      ShrinkKeepsAccounts(s.rows, s'.rows, s.passes[other]);
    }
  }

  lemma ChangeOnRows(s: State, change: Change)
    requires ChangeAllowed(s, change)
    ensures AfterChange(s, change).rows.Keys == s.rows.Keys
    ensures forall id :: id in AfterChange(s, change).passes ==>
              if id in s.passes then AfterChange(s, change).passes[id] == s.passes[id]
              else
                && change == Begin(id) && AfterChange(s, change).passes[id].pc == Begun
                && AfterChange(s, change).passes[id].created == {} && AfterChange(s, change).passes[id].index == 0
  {
    hide Bind;
  }

  lemma ChangeKeepsHolderInv(s: State, change: Change)
    requires HolderInv(s) && ChangeAllowed(s, change)
    ensures HolderInv(AfterChange(s, change))
  {
    hide AfterChange, ChangeAllowed, RunningIds, FreeInv;
    var s' := AfterChange(s, change);
    StepKeepsFreeInv(s, Outside(change));
    ChangeOnRows(s, change);
    ChangeKeepsLease(s, change);
    NoneRevivedShrinks(s.rows, s'.rows);
    forall id | id in s'.passes
        && (s'.passes[id].pc == Begun || Holds(s', id)) ensures Accounts(s'.rows, s'.passes[id]) {
      if id in s.passes {
        ShrinkKeepsAccounts(s.rows, s'.rows, s.passes[id]);
      }
    }
  }

  lemma ChangeKeepsLease(s: State, change: Change)
    requires ChangeAllowed(s, change)
    ensures AfterChange(s, change).row.lease == s.row.lease
  {
    hide Bind;
  }

  /** Kept by every event of a run, as long as placements are made by the lease holder. */
  lemma StepKeepsHolderInv(s: State, event: Event)
    requires HolderInv(s) && Allowed(s, event) && PlacesAsHolder(s, event)
    ensures HolderInv(After(s, event))
  {
    hide AfterMove, MoveAllowed, AfterChange, ChangeAllowed, Accounts, Bounded, FreeInv;
    match event
    case ByPass(id, move) =>
      var s' := After(s, event);
      StepKeepsFreeInv(s, event);
      MoveKeepsBounded(s, id, move);
      MoveOnLease(s, id, s.passes[id], move);
      forall other | other in s'.passes
          && (s'.passes[other].pc == Begun || Holds(s', other)) ensures Accounts(s'.rows, s'.passes[other]) {
        if other == id {
          OwnHolderAccounts(s, id, move);
        } else {
          OtherHolderAccounts(s, id, move, other);
        }
      }
    case Outside(change) => ChangeKeepsHolderInv(s, change);
  }

  ghost predicate ReplicaInv(s: State) { HolderInv(s) && LeaseInv(s) }

  /** While passes end within their lease, whoever is past its claim is the holder. */
  lemma TimelyPlacesAsHolder(s: State, event: Event)
    requires LeaseInv(s) && Allowed(s, event)
    ensures PlacesAsHolder(s, event)
  {
    if event.ByPass? {
      assert HoldsLease(s, event.id, s.passes[event.id]);
    }
  }

  lemma StepKeepsReplicaInv(s: State, event: Event)
    requires ReplicaInv(s) && Timely(s) && Allowed(s, event)
    ensures ReplicaInv(After(s, event))
  {
    hide Allowed, After, HolderInv, LeaseInv;
    StepKeepsLeaseInv(s, event);
    TimelyPlacesAsHolder(s, event);
    StepKeepsHolderInv(s, event);
  }

  lemma InitialReplicaInv(s: State)
    requires Initial(s)
    ensures ReplicaInv(s)
  {
    assert RunningIds(s.rows) == {};
  }

  lemma {:induction false} RunKeepsReplicaInv(states: seq<State>, events: seq<Event>, i: nat)
    requires TimelyRun(states, events) && i < |states|
    ensures SameConfig(states[i].row, states[0].row) && ReplicaInv(states[i])
  {
    hide After, Allowed, ReplicaInv, Initial, Timely;
    if i == 0 {
      InitialReplicaInv(states[0]);
    } else {
      RunKeepsReplicaInv(states, events, i - 1);
      StepKeepsReplicaInv(states[i - 1], events[i - 1]);
      FreePart(states[i - 1]);
      StepKeepsFreeInv(states[i - 1], events[i - 1]);
    }
  }

  lemma FreePart(s: State)
    requires ReplicaInv(s)
    ensures FreeInv(s) && LeaseInv(s) && Bounded(s)
  {
    hide FreeInv, LeaseInv;
  }

  // ---------------------------------------------------------------------------------------------------------------
  // Over whole runs.

  /** Every placement of the run is made by the pass whose lease is stored. */
  ghost predicate HolderRun(states: seq<State>, events: seq<Event>, n: nat) {
    forall i :: 0 <= i < n && i < |events| && i < |states| ==> PlacesAsHolder(states[i], events[i])
  }

  lemma {:induction false} RunKeepsHolderInv(states: seq<State>, events: seq<Event>, i: nat)
    requires Run(states, events) && i < |states| && HolderRun(states, events, i)
    ensures SameConfig(states[i].row, states[0].row) && HolderInv(states[i])
  {
    hide After, Allowed, HolderInv, Initial, PlacesAsHolder;
    if i == 0 {
      InitialReplicaInv(states[0]);
      HolderPart(states[0]);
    } else {
      RunKeepsHolderInv(states, events, i - 1);
      StepKeepsHolderInv(states[i - 1], events[i - 1]);
      RunKeepsFreeInv(states, events, i - 1);
      StepKeepsFreeInv(states[i - 1], events[i - 1]);
    }
  }

  lemma HolderPart(s: State)
    requires ReplicaInv(s)
    ensures HolderInv(s)
  {
    hide HolderInv, LeaseInv;
  }

  /**
   * Never more workloads wanted running than replicas, in every run in which each placement is made by the pass whose
   * lease is stored, however long passes take.
   */
  lemma NeverTooMany(states: seq<State>, events: seq<Event>, i: nat)
    requires Run(states, events) && i < |states| && HolderRun(states, events, i)
    ensures |RunningIds(states[i].rows)| <= states[0].row.replicas
  {
    hide Run, FreeInv, HolderRun;
    RunKeepsHolderInv(states, events, i);
  }

  /** So in every run with too many, some pass placed after it had lost its lease. */
  lemma ExcessNeedsLostLease(states: seq<State>, events: seq<Event>, i: nat)
    requires Run(states, events) && i < |states| && |RunningIds(states[i].rows)| > states[0].row.replicas
    ensures exists k :: 0 <= k < i && events[k].ByPass? && events[k].move.Place? && !Holds(states[k], events[k].id)
  {
    hide After, Allowed, Initial;
    if HolderRun(states, events, i) {
      NeverTooMany(states, events, i);
    } else {
      var k :| 0 <= k < i && k < |events| && !PlacesAsHolder(states[k], events[k]);
    }
  }

  /** In particular when passes end within their lease; then only one pass at a time is past its claim. */
  lemma NeverTooManyInTime(states: seq<State>, events: seq<Event>, i: nat)
    requires TimelyRun(states, events) && i < |states|
    ensures HolderRun(states, events, i) && |RunningIds(states[i].rows)| <= states[0].row.replicas
    ensures forall a, b ::
              (a in states[i].passes && b in states[i].passes && states[i].passes[a].pc != Begun
                  && states[i].passes[b].pc != Begun) ==> a == b
  {
    hide Allowed, After, Initial, FreeInv, Timely, PlacesAsHolder;
    RunKeepsReplicaInv(states, events, i);
    forall k | 0 <= k < i ensures PlacesAsHolder(states[k], events[k]) {
      RunKeepsReplicaInv(states, events, k);
      FreePart(states[k]);
      TimelyPlacesAsHolder(states[k], events[k]);
    }
  }

  lemma {:induction false} RunKeepsFreeInv(states: seq<State>, events: seq<Event>, i: nat)
    requires Run(states, events) && i < |states|
    ensures SameConfig(states[i].row, states[0].row) && FreeInv(states[i])
  {
    hide After, Allowed, FreeInv;
    if i == 0 {
      InitialReplicaInv(states[0]);
      FreePart(states[0]);
    } else {
      RunKeepsFreeInv(states, events, i - 1);
      StepKeepsFreeInv(states[i - 1], events[i - 1]);
    }
  }

  /** In every run: no workload is wanted running again, and no lost stateless one still is. */
  lemma {:induction false} NobodyReturns(states: seq<State>, events: seq<Event>, i: nat, j: nat, w: WorkloadId)
    requires Run(states, events) && i <= j < |states| && w in states[i].rows
    ensures w in states[j].rows && states[j].rows[w].node == states[i].rows[w].node
    ensures states[j].rows[w].desired == Desired.Running ==> states[i].rows[w].desired == Desired.Running
    ensures states[j].rows[w].desired == Desired.Running && !Persistent(states[0].row) ==>
              states[j].rows[w].actual != Actual.Lost
    ensures CountedUnhealthy(states[j].rows[w])
  {
    hide After, Allowed;
    RunKeepsFreeInv(states, events, j);
    if i < j {
      RunKeepsFreeInv(states, events, j - 1);
      StepKeepsFreeInv(states[j - 1], events[j - 1]);
      NobodyReturns(states, events, i, j - 1, w);
    }
  }

  /** Fixed host ports need a single replica: otherwise no run creates any workload. */
  lemma FixedPortsNeedOneReplica(states: seq<State>, events: seq<Event>, i: nat)
    requires Run(states, events) && i < |states|
    requires Ports.FixedHostPorts(states[0].row.ports) != [] && states[0].row.replicas > 1
    ensures states[i].rows == map[]
  {
    hide Run;
    RunKeepsFreeInv(states, events, i);
  }
}
