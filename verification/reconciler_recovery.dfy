/** Recovery: placements back off, and manual intervention comes late and stays. */
module ReconcilerRecovery {
  import opened Wrappers
  import opened Lifecycle
  import opened Reconciler
  import opened ReconcilerLease
  import opened ReconcilerReplicas
  import Scheduler

  // ---------------------------------------------------------------------------------------------------------------
  // The log of placements.

  /** A placement after another: a further one of the same pass, or the next number once the backoff is over. */
  ghost predicate Follows(a: Placement, b: Placement) {
    && a.stamp <= b.stamp
    && ((b.number == a.number && b.pass == a.pass)
        || (b.number == a.number + 1 && b.stamp >= a.stamp + BackoffMs(a.number)))
  }

  ghost predicate Spaced(log: seq<Placement>) {
    && (log != [] ==> log[0].number == 1)
    && forall i :: 0 <= i < |log| - 1 ==> Follows(log[i], log[i + 1])
  }

  lemma {:induction false} BackoffDoubles(k: nat)
    requires 1 <= k <= MAX_RECOVERY_ATTEMPTS
    ensures BackoffMs(k) == RECOVERY_BACKOFF_BASE_MS * Pow2(k - 1) < RECOVERY_BACKOFF_MAX_MS
  {
    assert Pow2(0) == 1 && Pow2(1) == 2 && Pow2(2) == 4 && Pow2(3) == 8;
    assert Pow2(4) == 2 * Pow2(3);
  }

  /** All the waiting that comes before the placement numbered `k`. */
  function WaitBefore(k: nat): int {
    if k <= 1 then 0 else WaitBefore(k - 1) + BackoffMs(k - 1)
  }

  lemma {:induction false} WaitBeforeFirst(log: seq<Placement>, i: nat)
    requires Spaced(log) && i < |log|
    ensures log[i].number >= 1 && log[i].stamp >= log[0].stamp + WaitBefore(log[i].number)
  {
    hide BackoffMs;
    if i > 0 {
      WaitBeforeFirst(log, i - 1);
      assert Follows(log[i - 1], log[i - 1 + 1]);
    }
  }

  lemma {:induction false} LaterAndApart(log: seq<Placement>, i: nat, j: nat)
    requires Spaced(log) && i <= j < |log|
    ensures log[i].stamp <= log[j].stamp && log[i].number <= log[j].number
    ensures if log[i].number == log[j].number then log[i].pass == log[j].pass
              else log[j].stamp >= log[i].stamp + BackoffMs(log[i].number)
  {
    hide BackoffMs;
    if i < j {
      LaterAndApart(log, i, j - 1);
      assert Follows(log[j - 1], log[j - 1 + 1]);
    }
  }

  lemma SpacedSnoc(log: seq<Placement>, next: Placement)
    requires Spaced(log)
    requires if log == [] then next.number == 1 else Follows(log[|log| - 1], next)
    ensures Spaced(log + [next])
  {
    hide BackoffMs;
  }

  // ---------------------------------------------------------------------------------------------------------------
  // The counter never passes its bound, with or without the lease.

  ghost predicate Capped(s: State) {
    s.row.attempts <= MAX_RECOVERY_ATTEMPTS && forall id :: id in s.passes ==>
        s.passes[id].row.attempts <= MAX_RECOVERY_ATTEMPTS
  }

  /** How a move writes the recovery fields. */
  lemma MoveOnRecovery(s: State, id: PassId, pass: Pass, move: Move)
    requires MoveAllowed(s, id, pass, move)
    ensures var s' := AfterMove(s, id, pass, move);
            match move
            case Place(w, at) =>
              && s'.escalatedAt == s.escalatedAt
              && if HasReplacement(pass.rows) then
                   && s'.row.attempts == pass.row.attempts + 1 <= MAX_RECOVERY_ATTEMPTS
                   && s'.row.recovery == Backoff
                   && s'.row.nextAttemptAt == Some(at + BackoffMs(pass.row.attempts + 1))
                   && s'.log == s.log + [Placement(pass.row.attempts + 1, at, id)]
                 else SameRecovery(s'.row, s.row) && s'.log == s.log
            case Reset => s'.row.attempts == 0 && s'.row.nextAttemptAt == None && s'.row.recovery == Idle
                && s'.log == [] && s'.escalatedAt == s.escalatedAt
            case Escalate =>
              s'.row.attempts == s.row.attempts && s'.row.nextAttemptAt == s.row.nextAttemptAt
                  && s'.row.recovery == ManualIntervention
              && s'.log == s.log && s'.escalatedAt == Some(s.clock)
            case _ => SameRecovery(s'.row, s.row) && s'.log == s.log && s'.escalatedAt == s.escalatedAt
  {
    hide BoundNodes, VolumesUsable, UnhealthyIds, ActiveIds, Missing, HasReplacement, BackoffMs, Scheduler.Decides;
    hide Bind, PlacedRequirements;
    hide AfterReadRow, AfterReadWorkloads, AfterCheckVolumes, AfterDecide, AfterCheckRecovery, AfterSchedule;
    hide AfterReadClaims;
  }

  predicate SameRecovery(a: Deployment, b: Deployment) {
    a.attempts == b.attempts && a.nextAttemptAt == b.nextAttemptAt && a.recovery == b.recovery
  }

  lemma ChangeOnRecovery(s: State, change: Change)
    requires ChangeAllowed(s, change)
    ensures var s' := AfterChange(s, change);
            && SameRecovery(s'.row, s.row) && s'.log == s.log && s'.escalatedAt == s.escalatedAt && s.clock <= s'.clock
            && forall id :: id in s'.passes ==>
                if id in s.passes then s'.passes[id] == s.passes[id] else s'.passes[id].row == s.row
  {
    hide Bind;
  }

  lemma StepKeepsCapped(s: State, event: Event)
    requires Capped(s) && Allowed(s, event)
    ensures Capped(After(s, event))
  {
    hide AfterMove, MoveAllowed, AfterChange, ChangeAllowed, BackoffMs, HasReplacement;
    var s' := After(s, event);
    match event
    case ByPass(id, move) =>
      MoveOnRecovery(s, id, s.passes[id], move);
      forall other | other in s'.passes ensures s'.passes[other].row.attempts <= MAX_RECOVERY_ATTEMPTS {
        if other == id {
          MoveKeepsSnapshot(s, id, s.passes[id], move);
        } else {
          MoveKeepsOthers(s, id, s.passes[id], move, other);
        }
      }
    case Outside(change) => ChangeOnRecovery(s, change);
  }

  /** The recovery counter never exceeds five, however passes interleave. */
  lemma {:induction false} AttemptsNeverExceedFive(states: seq<State>, events: seq<Event>, i: nat)
    requires Run(states, events) && i < |states|
    ensures states[i].row.attempts <= MAX_RECOVERY_ATTEMPTS && Capped(states[i])
  {
    hide After, Allowed;
    if i > 0 {
      AttemptsNeverExceedFive(states, events, i - 1);
      StepKeepsCapped(states[i - 1], events[i - 1]);
    }
  }

  // ---------------------------------------------------------------------------------------------------------------
  // Backoff and escalation, for passes that write the recovery fields while they hold the lease.

  /** The stored counter, time and state agree with the log. */
  ghost predicate Logged(s: State) {
    && Spaced(s.log)
    && (s.log == [] <==> s.row.recovery == Idle)
    && s.row.attempts == (if s.log == [] then 0 else s.log[|s.log| - 1].number)
    && s.row.nextAttemptAt == (if s.log == [] then None else Some(s.log[|s.log| - 1].stamp + BackoffMs(s.row.attempts)))
    && (s.log != [] ==> s.log[|s.log| - 1].stamp <= s.clock)
    && s.row.attempts <= MAX_RECOVERY_ATTEMPTS
    && (s.row.recovery == ManualIntervention <==> s.escalatedAt.Some?)
  }

  /** Manual intervention came after the last backoff, and replicas are missing ever since. */
  ghost predicate Escalated(s: State) {
    && s.row.recovery == ManualIntervention && s.row.attempts == MAX_RECOVERY_ATTEMPTS && s.escalatedAt.Some?
        && s.log != []
    && s.escalatedAt.value >= s.log[|s.log| - 1].stamp + BackoffMs(MAX_RECOVERY_ATTEMPTS)
    && |RunningIds(s.rows)| < s.row.replicas
  }

  /** How the working pass's copy of the recovery fields relates to the stored ones. */
  ghost predicate Tracks(s: State, id: PassId, pass: Pass) {
    match PhaseOf(pass.pc)
    case BeforeRows => pass.pc == HasRow ==> SameRecovery(pass.row, s.row)
    case BeforeLoop =>
      && SameRecovery(pass.row, s.row)
      && (s.row.recovery == ManualIntervention ==> Missing(pass.row, pass.rows) > 0)
      && (pass.pc == Resetting ==> Missing(pass.row, pass.rows) == 0)
    case BetweenPlacements => Continues(s, id, pass)
    case InPlacement =>
      && Continues(s, id, pass)
      && pass.row.recovery != ManualIntervention
      && (pass.row.nextAttemptAt.Some? ==> pass.row.nextAttemptAt.value <= pass.checkedAt)
      && pass.checkedAt <= s.clock
      && (s.log != [] ==> s.log[|s.log| - 1].stamp <= pass.checkedAt)
    case Over => true
  }

  ghost predicate Continues(s: State, id: PassId, pass: Pass) {
    if pass.index == 0 || !HasReplacement(pass.rows) then SameRecovery(pass.row, s.row)
    else
      && s.row.attempts == pass.row.attempts + 1 && s.row.recovery == Backoff
      && s.log != [] && s.log[|s.log| - 1].pass == id
  }

  /** The condition on timing: a pass that places, resets or escalates still holds the stored lease. */
  ghost predicate WritesAsHolder(s: State, event: Event) {
    event.ByPass? && (event.move.Place? || event.move.Reset? || event.move.Escalate?) ==> Holds(s, event.id)
  }

  ghost predicate RecoveryInv(s: State) {
    && HolderInv(s)
    && Logged(s)
    && (s.row.recovery == ManualIntervention ==> Escalated(s))
    && forall id :: id in s.passes && (s.passes[id].pc == Begun || Holds(s, id)) ==> Tracks(s, id, s.passes[id])
  }

  lemma HolderFacts(s: State)
    requires HolderInv(s)
    ensures FreeInv(s) && Bounded(s)
  {
    hide FreeInv, Bounded;
  }

  /** The placement the log records next follows the last one. */
  lemma PlaceKeepsLogged(s: State, id: PassId, pass: Pass, w: WorkloadId, at: Time)
    requires Logged(s) && Tracks(s, id, pass) && MoveAllowed(s, id, pass, Place(w, at))
    ensures s.row.recovery != ManualIntervention
    ensures Logged(AfterPlace(s, id, pass, w, at)) && AfterPlace(s, id, pass, w, at).row.recovery != ManualIntervention
  {
    hide BackoffMs, HasReplacement, PlacedRequirements, Spaced;
    if HasReplacement(pass.rows) {
      SpacedSnoc(s.log, Placement(RecoveryAttempt(pass), at, id));
    }
  }

  lemma EscalateKeepsLogged(s: State, id: PassId, pass: Pass)
    requires Logged(s) && Tracks(s, id, pass) && MoveAllowed(s, id, pass, Escalate) && Accounts(s.rows, pass)
              && SameConfig(pass.row, s.row)
    requires pass.row.attempts <= MAX_RECOVERY_ATTEMPTS
    ensures Logged(AfterMove(s, id, pass, Escalate)) && Escalated(AfterMove(s, id, pass, Escalate))
  {
    hide BackoffMs, HasReplacement, Spaced, RunningIds, ActiveIds;
    var active := ActiveIds(pass.rows, Persistent(pass.row));
    Subset(RunningIds(s.rows), active + pass.created);
    UnionBound(active, pass.created);
  }

  /** Neither a placement nor an escalation: the counter stays or is reset, and a reset finds nothing missing. */
  lemma OtherMoveKeepsLogged(s: State, id: PassId, move: Move)
    requires RecoveryInv(s) && Allowed(s, ByPass(id, move)) && !move.Place? && !move.Escalate?
    requires WritesAsHolder(s, ByPass(id, move))
    ensures Logged(After(s, ByPass(id, move)))
    ensures s.row.recovery == ManualIntervention ==> !move.Reset?
    ensures After(s, ByPass(id, move)).row.recovery == ManualIntervention ==> Escalated(After(s, ByPass(id, move)))
  {
    hide AfterMove, BackoffMs, HasReplacement, RunningIds, FreeInv, Missing, NoneRevived, HolderInv;
    var pass, s' := s.passes[id], After(s, ByPass(id, move));
    HolderFacts(s);
    MoveOnRecovery(s, id, pass, move);
    MoveKeepsConfig(s, id, pass, move);
    FewerRunning(s, id, move);
  }

  lemma FewerRunning(s: State, id: PassId, move: Move)
    requires FreeInv(s) && Allowed(s, ByPass(id, move)) && !move.Place?
    ensures |RunningIds(After(s, ByPass(id, move)).rows)| <= |RunningIds(s.rows)|
  {
    hide AfterMove, RunningIds, FreeInv, NoneRevived;
    MoveKeepsRowFacts(s, id, move);
    MoveOnRows(s, id, s.passes[id], move);
    NoneRevivedShrinks(s.rows, After(s, ByPass(id, move)).rows);
  }

  lemma MoveKeepsLogged(s: State, id: PassId, move: Move)
    requires RecoveryInv(s) && Capped(s) && Allowed(s, ByPass(id, move)) && WritesAsHolder(s, ByPass(id, move))
    ensures Logged(After(s, ByPass(id, move)))
    ensures s.row.recovery == ManualIntervention ==> !move.Place? && !move.Reset? && !move.Escalate?
    ensures !move.Place? && After(s, ByPass(id, move)).row.recovery == ManualIntervention ==>
              Escalated(After(s, ByPass(id, move)))
    ensures move.Place? ==> After(s, ByPass(id, move)).row.recovery != ManualIntervention
  {
    hide BackoffMs, HasReplacement, Spaced, RunningIds, ActiveIds, FreeInv, LeaseInv, Bounded, Missing;
    var pass := s.passes[id];
    HolderFacts(s);
    FreeHasConfig(s);
    match move
    case Place(w, at) => PlaceKeepsLogged(s, id, pass, w, at);
    case Escalate => EscalateKeepsLogged(s, id, pass);
    case _ => OtherMoveKeepsLogged(s, id, move);
  }

  // ---------------------------------------------------------------------------------------------------------------
  // What the pass at work tracks.

  /** When the rows are read after an escalation, replicas are missing. */
  lemma ReadKeepsTracks(s: State, id: PassId, pass: Pass)
    requires Tracks(s, id, pass) && pass.pc == HasRow && LostIsRetired(s) && SameConfig(pass.row, s.row)
    requires s.row.recovery == ManualIntervention ==> |RunningIds(s.rows)| < s.row.replicas
    ensures var s' := AfterMove(s, id, pass, ReadWorkloads);
            id in s'.passes && Tracks(s', id, s'.passes[id])
  {
    hide FixedPortsRefused, WithFixedPorts, RunningIds, ActiveIds, LostIsRetired, Managed;
    WantedIsActive(s, pass.row);
  }

  lemma PlaceKeepsTracks(s: State, id: PassId, pass: Pass, w: WorkloadId, at: Time)
    requires MoveAllowed(s, id, pass, Place(w, at)) && Tracks(s, id, pass)
    ensures var s' := AfterMove(s, id, pass, Place(w, at));
            id in s'.passes && Tracks(s', id, s'.passes[id])
  {
    hide BackoffMs, HasReplacement, Missing, PlacedRequirements;
  }

  lemma DecideKeepsTracks(s: State, id: PassId, pass: Pass)
    requires Tracks(s, id, pass) && pass.pc == Deciding && Accounts(s.rows, pass)
    ensures var s' := AfterMove(s, id, pass, Decide);
            id in s'.passes && Tracks(s', id, s'.passes[id])
  {
    hide UnhealthyIds, RunningIds, ActiveIds, Missing, HasReplacement;
  }

  /** The loop goes on only when no backoff is running and nobody has to intervene. */
  lemma CheckKeepsTracks(s: State, id: PassId, pass: Pass)
    requires Tracks(s, id, pass) && pass.pc == LoopTop && Logged(s)
    ensures var s' := AfterMove(s, id, pass, CheckRecovery);
            id in s'.passes && Tracks(s', id, s'.passes[id])
  {
    hide HasReplacement, Missing, Spaced, BackoffMs;
  }

  lemma OwnTracks(s: State, id: PassId, pass: Pass, move: Move)
    requires MoveAllowed(s, id, pass, move) && Tracks(s, id, pass) && Logged(s) && Accounts(s.rows, pass)
    requires LostIsRetired(s) && SameConfig(pass.row, s.row)
    requires s.row.recovery == ManualIntervention ==> |RunningIds(s.rows)| < s.row.replicas
    ensures var s' := AfterMove(s, id, pass, move);
            id in s'.passes ==> Tracks(s', id, s'.passes[id])
  {
    hide AfterMove, HasReplacement, RunningIds, Missing, LostIsRetired, Tracks, Logged, Accounts;
    match move
    case ReadWorkloads => ReadKeepsTracks(s, id, pass);
    case Place(w, at) => PlaceKeepsTracks(s, id, pass, w, at);
    case Decide => DecideKeepsTracks(s, id, pass);
    case CheckRecovery => CheckKeepsTracks(s, id, pass);
    case ReadRow => PlainKeepsTracks(s, id, pass, move);
    case Retire(_) => PlainKeepsTracks(s, id, pass, move);
    case Reset => PlainKeepsTracks(s, id, pass, move);
    case Escalate => PlainKeepsTracks(s, id, pass, move);
    case _ => QuietKeepsTracks(s, id, pass, move);
  }

  lemma PlainKeepsTracks(s: State, id: PassId, pass: Pass, move: Move)
    requires MoveAllowed(s, id, pass, move) && (move.ReadRow? || move.Retire? || move.Reset? || move.Escalate?)
    ensures var s' := AfterMove(s, id, pass, move);
            id in s'.passes ==> Tracks(s', id, s'.passes[id])
  {
    hide HasReplacement, Missing;
  }

  lemma QuietKeepsTracks(s: State, id: PassId, pass: Pass, move: Move)
    requires MoveAllowed(s, id, pass, move) && Tracks(s, id, pass) && Quiet(move) && !move.Reset? && !move.Escalate?
    ensures var s' := AfterMove(s, id, pass, move);
            id in s'.passes ==> Tracks(s', id, s'.passes[id])
  {
    hide AfterMove, MoveAllowed, HasReplacement, Missing;
    if id in AfterMove(s, id, pass, move).passes {
      QuietMove(s, id, pass, move);
      MoveOnRecovery(s, id, pass, move);
      MoveKeepsConfig(s, id, pass, move);
    }
  }

  lemma MoveKeepsTracks(s: State, id: PassId, move: Move, other: PassId)
    requires RecoveryInv(s) && Allowed(s, ByPass(id, move)) && WritesAsHolder(s, ByPass(id, move))
    requires other in After(s, ByPass(id, move)).passes
    requires After(s, ByPass(id, move)).passes[other].pc == Begun || Holds(After(s, ByPass(id, move)), other)
    ensures Tracks(After(s, ByPass(id, move)), other, After(s, ByPass(id, move)).passes[other])
  {
    hide AfterMove, FreeInv, RunningIds, Bounded, Logged, HasReplacement, Missing, Accounts, LeaseFree;
    var pass := s.passes[id];
    HolderFacts(s);
    FreeHasConfig(s);
    MoveOnLease(s, id, pass, move);
    if other == id {
      OwnTracks(s, id, pass, move);
    } else {
      MoveKeepsOthers(s, id, pass, move, other);
      OtherTracks(s, id, move, other);
    }
  }

  lemma OtherTracks(s: State, id: PassId, move: Move, other: PassId)
    requires Allowed(s, ByPass(id, move)) && WritesAsHolder(s, ByPass(id, move))
    requires other != id && other in s.passes && other in After(s, ByPass(id, move)).passes
    requires Tracks(s, other, s.passes[other]) && (s.passes[other].pc == Begun || Holds(s, other))
    ensures Tracks(After(s, ByPass(id, move)), other, After(s, ByPass(id, move)).passes[other])
  {
    hide AfterMove, HasReplacement, Missing;
    var pass := s.passes[id];
    MoveKeepsOthers(s, id, pass, move, other);
    MoveOnRecovery(s, id, pass, move);
    MoveKeepsConfig(s, id, pass, move);
  }

  lemma ChangeKeepsRecoveryInv(s: State, change: Change)
    requires RecoveryInv(s) && ChangeAllowed(s, change)
    ensures RecoveryInv(AfterChange(s, change))
  {
    hide AfterChange, ChangeAllowed, RunningIds, FreeInv, Accounts, Spaced, BackoffMs, HasReplacement;
    hide Missing, Bounded, NoneRevived;
    var s' := AfterChange(s, change);
    ChangeKeepsHolderInv(s, change);
    ChangeKeepsLease(s, change);
    ChangeOnRecovery(s, change);
    ChangeOnRows(s, change);
    StepKeepsFreeInv(s, Outside(change));
    NoneRevivedShrinks(s.rows, s'.rows);
  }

  lemma StepKeepsRecoveryInv(s: State, event: Event)
    requires RecoveryInv(s) && Capped(s) && Allowed(s, event) && WritesAsHolder(s, event)
    ensures RecoveryInv(After(s, event))
  {
    hide AfterMove, MoveAllowed, AfterChange, ChangeAllowed, HolderInv, Logged, Escalated, Tracks, Capped;
    match event
    case ByPass(id, move) =>
      var s' := After(s, event);
      StepKeepsHolderInv(s, event);
      MoveKeepsLogged(s, id, move);
      forall other | other in s'.passes && (s'.passes[other].pc == Begun || Holds(s', other))
        ensures Tracks(s', other, s'.passes[other])
      {
        MoveKeepsTracks(s, id, move, other);
      }
    case Outside(change) => ChangeKeepsRecoveryInv(s, change);
  }

  lemma InitialRecoveryInv(s: State)
    requires Initial(s)
    ensures RecoveryInv(s)
  {
    InitialReplicaInv(s);
    HolderPart(s);
  }

  /** Every pass of the run that places, resets or escalates holds the stored lease. */
  ghost predicate WriterRun(states: seq<State>, events: seq<Event>, n: nat) {
    forall i :: 0 <= i < n && i < |events| && i < |states| ==> WritesAsHolder(states[i], events[i])
  }

  /** Passes that end within their lease write as its holders. */
  lemma TimelyIsWriterRun(states: seq<State>, events: seq<Event>, n: nat)
    requires TimelyRun(states, events)
    ensures WriterRun(states, events, n)
  {
    hide Allowed, After, Initial, FreeInv, Timely;
    forall k | 0 <= k < n && k < |events| && k < |states| ensures WritesAsHolder(states[k], events[k]) {
      RunKeepsReplicaInv(states, events, k);
      FreePart(states[k]);
      TimelyWritesAsHolder(states[k], events[k]);
    }
  }

  lemma TimelyWritesAsHolder(s: State, event: Event)
    requires LeaseInv(s) && Allowed(s, event)
    ensures WritesAsHolder(s, event)
  {
    if event.ByPass? {
      assert HoldsLease(s, event.id, s.passes[event.id]);
    }
  }

  lemma {:induction false} RunKeepsRecoveryInv(states: seq<State>, events: seq<Event>, i: nat)
    requires Run(states, events) && i < |states| && WriterRun(states, events, i)
    ensures RecoveryInv(states[i])
  {
    hide After, Allowed, RecoveryInv, Initial, WritesAsHolder, Capped;
    if i == 0 {
      InitialRecoveryInv(states[0]);
    } else {
      RunKeepsRecoveryInv(states, events, i - 1);
      AttemptsNeverExceedFive(states, events, i - 1);
      StepKeepsRecoveryInv(states[i - 1], events[i - 1]);
    }
  }

  // ---------------------------------------------------------------------------------------------------------------
  // Over whole runs whose passes write as lease holders.

  /**
   * Recovery placements of the same number belong to one pass; one numbered `k` and a later one of a higher number
   * are at least 30 s * 2^(k-1) apart.
   */
  lemma PlacementsBackOff(states: seq<State>, events: seq<Event>, n: nat, i: nat, j: nat)
    requires Run(states, events) && n < |states| && WriterRun(states, events, n) && i < j < |states[n].log|
    ensures var a, b := states[n].log[i], states[n].log[j];
            && 1 <= a.number <= b.number <= MAX_RECOVERY_ATTEMPTS
            && (a.number == b.number ==> a.pass == b.pass)
            && (a.number < b.number ==> b.stamp >= a.stamp + RECOVERY_BACKOFF_BASE_MS * Pow2(a.number - 1))
  {
    hide Run, WriterRun, HolderInv, Escalated, Tracks, BackoffMs;
    RunKeepsRecoveryInv(states, events, n);
    var log := states[n].log;
    WaitBeforeFirst(log, i);
    LaterAndApart(log, i, j);
    LaterAndApart(log, j, |log| - 1);
    BackoffDoubles(log[i].number);
  }

  /** Manual intervention comes no sooner than 930 seconds after the first recovery placement. */
  lemma EscalationIsLate(states: seq<State>, events: seq<Event>, n: nat)
    requires Run(states, events) && n < |states| && WriterRun(states, events, n)
    requires states[n].row.recovery == ManualIntervention
    ensures states[n].escalatedAt.Some? && states[n].log != []
    ensures states[n].escalatedAt.value >= states[n].log[0].stamp + 930_000
    ensures |RunningIds(states[n].rows)| < states[n].row.replicas
  {
    hide Run, WriterRun, HolderInv, Tracks, BackoffMs;
    RunKeepsRecoveryInv(states, events, n);
    var log := states[n].log;
    WaitBeforeFirst(log, |log| - 1);
    TotalWait();
  }

  lemma TotalWait()
    ensures WaitBefore(MAX_RECOVERY_ATTEMPTS) + BackoffMs(MAX_RECOVERY_ATTEMPTS) == 930_000
  {
    BackoffDoubles(1);
    BackoffDoubles(2);
    BackoffDoubles(3);
    BackoffDoubles(4);
    BackoffDoubles(5);
    assert Pow2(0) == 1 && Pow2(1) == 2 && Pow2(2) == 4 && Pow2(3) == 8 && Pow2(4) == 16;
    assert WaitBefore(1) == 0 && WaitBefore(2) == 30_000 && WaitBefore(3) == 90_000;
    assert WaitBefore(4) == 210_000 && WaitBefore(5) == 450_000;
  }

  lemma StepAfterEscalation(s: State, event: Event)
    requires RecoveryInv(s) && Capped(s) && Allowed(s, event) && WritesAsHolder(s, event)
    requires s.row.recovery == ManualIntervention
    ensures var s' := After(s, event);
            s'.row.recovery == ManualIntervention && s'.rows.Keys == s.rows.Keys && s'.log == s.log
                && s'.escalatedAt == s.escalatedAt
  {
    hide AfterMove, AfterChange, HolderInv, Logged, Escalated, Tracks, BackoffMs, HasReplacement;
    match event
    case ByPass(id, move) =>
      MoveKeepsLogged(s, id, move);
      MoveOnRecovery(s, id, s.passes[id], move);
      MoveOnRows(s, id, s.passes[id], move);
    case Outside(change) =>
      ChangeOnRecovery(s, change);
      ChangeOnRows(s, change);
  }

  /** Manual intervention is never left, and no workload is created after it. */
  lemma {:induction false} EscalationIsForever(states: seq<State>, events: seq<Event>, i: nat, j: nat)
    requires Run(states, events) && i <= j < |states| && WriterRun(states, events, j)
    requires states[i].row.recovery == ManualIntervention
    ensures states[j].row.recovery == ManualIntervention && states[j].rows.Keys == states[i].rows.Keys
    ensures states[j].escalatedAt == states[i].escalatedAt
  {
    hide After, Allowed, RecoveryInv, Capped, Initial, WritesAsHolder;
    if i < j {
      EscalationIsForever(states, events, i, j - 1);
      RunKeepsRecoveryInv(states, events, j - 1);
      AttemptsNeverExceedFive(states, events, j - 1);
      StepAfterEscalation(states[j - 1], events[j - 1]);
    }
  }
}
