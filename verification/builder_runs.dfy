/** The builder's run table, the guarded statements that update it, and the worker loop that issues them. */
module BuilderRuns {
  import opened Wrappers

  type RunId = string
  type WorkerId = string

  datatype RunStatus = Queued | Running | Pushing | Succeeded | Failed | Cancelled

  datatype Run = Run(
    key: string,
    status: RunStatus,
    worker: Option<WorkerId>,
    lease: Option<int>,
    attempt: nat,
    cancelRequested: bool,
    createdAt: int)

  type Runs = map<RunId, Run>

  predicate Active(run: Run) { run.status == Running || run.status == Pushing }

  predicate Terminal(run: Run) { run.status == Succeeded || run.status == Failed || run.status == Cancelled }

  predicate Expired(run: Run, now: int) {
    Active(run) && run.lease.Some? && run.lease.value < now
  }

  /** One SQL statement. `lease` is the lease length in the clock's unit. */
  datatype Statement =
    | Create(id: RunId, key: string)
    | Claim(id: RunId, worker: WorkerId, lease: nat)
    | Heartbeat(id: RunId, worker: WorkerId, lease: nat)
    | MarkPushing(id: RunId, worker: WorkerId)
    | RecoverExpiredLeases
    | Complete(id: RunId, worker: WorkerId)
    | Fail(id: RunId, worker: WorkerId)
    | RequestCancel(id: RunId)

  ghost predicate KeyTaken(runs: Runs, key: string) {
    exists id :: id in runs && runs[id].key == key
  }

  /** Whether the statement's WHERE clause matches the row of `id`. Claiming a locked or absent row matches nothing. */
  predicate Matches(run: Run, stmt: Statement, id: RunId, now: int) {
    match stmt
    case Create(_, _) => false
    case Claim(target, _, _) => target == id && run.status == Queued
    case Heartbeat(target, worker, _) => target == id && run.worker == Some(worker) && Active(run)
    case MarkPushing(target, worker) => target == id && run.worker == Some(worker) && run.status == Running
    case RecoverExpiredLeases => Expired(run, now)
    case Complete(target, worker) => target == id && run.worker == Some(worker)
    case Fail(target, worker) => target == id && run.worker == Some(worker)
    case RequestCancel(target) => target == id && (run.status == Queued || Active(run))
  }

  /** The statement's SET clause. */
  function Updated(run: Run, stmt: Statement, now: int): Run {
    match stmt
    case Create(_, _) => run
    case Claim(_, worker, lease) =>
        run.(status := Running, worker := Some(worker), attempt := run.attempt + 1, lease := Some(now + lease))
    case Heartbeat(_, _, lease) => run.(lease := Some(now + lease))
    case MarkPushing(_, _) => run.(status := Pushing)
    case RecoverExpiredLeases => run.(status := Queued, worker := None, lease := None)
    case Complete(_, _) => run.(status := if run.cancelRequested then Cancelled else Succeeded, lease := None)
    case Fail(_, _) => run.(status := if run.cancelRequested then Cancelled else Failed, lease := None)
    case RequestCancel(_) =>
        run.(cancelRequested := true, status := if run.status == Queued then Cancelled else run.status)
  }

  function UpdateMatching(runs: Runs, stmt: Statement, now: int): Runs {
    map id | id in runs :: if Matches(runs[id], stmt, id, now) then Updated(runs[id], stmt, now) else runs[id]
  }

  /** One statement, applied atomically. */
  ghost function Execute(runs: Runs, stmt: Statement, now: int): Runs {
    if stmt.Create? then
      if KeyTaken(runs, stmt.key) || stmt.id in runs then runs
      else runs[stmt.id := Run(stmt.key, Queued, None, None, 0, false, now)]
    else UpdateMatching(runs, stmt, now)
  }

  /** Only the worker's own run is closed: cancelled when that was asked for, with the given verdict otherwise. */
  ghost predicate Closed(before: Runs, after: Runs, id: RunId, worker: WorkerId, verdict: RunStatus)
    requires after.Keys == before.Keys
  {
    forall other :: other in before ==>
      if other == id && before[id].worker == Some(worker) then
        && after[id].status == (if before[id].cancelRequested then Cancelled else verdict)
        && after[id].lease == None && after[id].worker == Some(worker) && after[id].attempt == before[id].attempt
        && after[id].key == before[id].key && after[id].cancelRequested == before[id].cancelRequested
        && after[id].createdAt == before[id].createdAt
      else after[other] == before[other]
  }

  /** The repository over its table. `now` is the database clock at the statement. */
  class RunRepository {
    var runs: Runs

    constructor ()
      ensures runs == map[]
    {
      runs := map[];
    }

    /** `id` is a fresh random identifier; a key already present returns its run unchanged. */
    method Create(id: RunId, key: string, now: int) returns (existing: RunId, created: bool)
      requires id !in runs
      modifies this
      ensures runs == Execute(old(runs), Statement.Create(id, key), now)
      ensures existing in runs && runs[existing].key == key
      ensures created <==> !KeyTaken(old(runs), key)
      ensures created ==> existing == id
      ensures runs == if created then old(runs)[id := Run(key, Queued, None, None, 0, false, now)] else old(runs)
    {
      if other :| other in runs && runs[other].key == key {
        return other, false;
      }
      runs := runs[id := Run(key, Queued, None, None, 0, false, now)];
      existing, created := id, true;
    }

    /** Claims the oldest queued run, if there is one. */
    method Claim(worker: WorkerId, lease: nat, now: int) returns (claimed: Option<RunId>)
      modifies this
      ensures claimed.None? <==> forall id :: id in old(runs) ==> old(runs)[id].status != Queued
      ensures claimed.None? ==> runs == old(runs)
      ensures claimed.Some? ==>
                && claimed.value in old(runs) && old(runs)[claimed.value].status == Queued
                && (forall id :: id in old(runs) && old(runs)[id].status == Queued ==>
                    old(runs)[claimed.value].createdAt <= old(runs)[id].createdAt)
                && runs == Execute(old(runs), Statement.Claim(claimed.value, worker, lease), now)
                && runs == old(runs)[claimed.value := old(runs)[claimed.value].(
                     status := Running, worker := Some(worker), lease := Some(now + lease),
                     attempt := old(runs)[claimed.value].attempt + 1)]
    {
      var queued := set id | id in runs && runs[id].status == Queued;
      if queued == {} {
        forall id | id in runs ensures runs[id].status != Queued {
          assert id !in queued;
        }
        return None;
      }
      OldestExists(runs, queued);
      var id :| id in queued && forall other :: other in queued ==> runs[id].createdAt <= runs[other].createdAt;
      runs := UpdateMatching(runs, Statement.Claim(id, worker, lease), now);
      claimed := Some(id);
    }

    method Heartbeat(id: RunId, worker: WorkerId, lease: nat, now: int) returns (renewed: bool)
      modifies this
      ensures runs == Execute(old(runs), Statement.Heartbeat(id, worker, lease), now)
      ensures renewed <==> id in old(runs) && old(runs)[id].worker == Some(worker)
                           && (old(runs)[id].status == Running || old(runs)[id].status == Pushing)
      ensures runs == if renewed then old(runs)[id := old(runs)[id].(lease := Some(now + lease))] else old(runs)
    {
      renewed := id in runs && Matches(runs[id], Statement.Heartbeat(id, worker, lease), id, now);
      runs := UpdateMatching(runs, Statement.Heartbeat(id, worker, lease), now);
    }

    method MarkPushing(id: RunId, worker: WorkerId) returns (pushing: bool)
      modifies this
      ensures forall now :: runs == Execute(old(runs), Statement.MarkPushing(id, worker), now)
      ensures pushing <==> id in old(runs) && old(runs)[id].worker == Some(worker) && old(runs)[id].status == Running
      ensures runs == if pushing then old(runs)[id := old(runs)[id].(status := Pushing)] else old(runs)
    {
      pushing := id in runs && runs[id].worker == Some(worker) && runs[id].status == Running;
      if pushing {
        runs := runs[id := runs[id].(status := Pushing)];
      }
    }

    /** Exactly the runs with an expired lease go back to the queue, unassigned; no expired lease is left. */
    method RecoverExpiredLeases(now: int) returns (recovered: nat)
      modifies this
      ensures runs == Execute(old(runs), Statement.RecoverExpiredLeases, now) && runs.Keys == old(runs).Keys
      ensures forall id :: id in old(runs) ==>
                (runs[id] != old(runs)[id] <==> Expired(old(runs)[id], now)) && !Expired(runs[id], now)
      ensures forall id :: id in old(runs) ==>
                (Expired(old(runs)[id], now) <==>
                   && (old(runs)[id].status == Running || old(runs)[id].status == Pushing)
                   && old(runs)[id].lease.Some? && old(runs)[id].lease.value < now)
      ensures forall id :: id in old(runs) && Expired(old(runs)[id], now) ==>
                && runs[id].status == Queued && runs[id].worker == None && runs[id].lease == None
                && runs[id].attempt == old(runs)[id].attempt
                    && runs[id].cancelRequested == old(runs)[id].cancelRequested
                && runs[id].key == old(runs)[id].key && runs[id].createdAt == old(runs)[id].createdAt
      ensures recovered == |set id | id in old(runs) && runs[id] != old(runs)[id]|
      ensures TableSound(old(runs)) ==> TableSound(runs)
    {
      if TableSound(runs) {
        StatementKeepsTable(runs, Statement.RecoverExpiredLeases, now);
      }
      var expired := set id | id in runs && Expired(runs[id], now);
      recovered := |expired|;
      runs := UpdateMatching(runs, Statement.RecoverExpiredLeases, now);
      assert expired == set id | id in old(runs) && runs[id] != old(runs)[id];
    }

    /**
     * Closes the run for its recorded worker, after which its heartbeats and pushes are refused; other workers change
     * nothing.
     */
    method Complete(id: RunId, worker: WorkerId, now: int)
      modifies this
      ensures runs == Execute(old(runs), Statement.Complete(id, worker), now) && runs.Keys == old(runs).Keys
      ensures Closed(old(runs), runs, id, worker, Succeeded)
      ensures TableSound(old(runs)) ==> TableSound(runs)
    {
      if TableSound(runs) {
        StatementKeepsTable(runs, Statement.Complete(id, worker), now);
      }
      runs := UpdateMatching(runs, Statement.Complete(id, worker), now);
    }

    method Fail(id: RunId, worker: WorkerId, now: int)
      modifies this
      ensures runs == Execute(old(runs), Statement.Fail(id, worker), now) && runs.Keys == old(runs).Keys
      ensures Closed(old(runs), runs, id, worker, Failed)
      ensures TableSound(old(runs)) ==> TableSound(runs)
    {
      if TableSound(runs) {
        StatementKeepsTable(runs, Statement.Fail(id, worker), now);
      }
      runs := UpdateMatching(runs, Statement.Fail(id, worker), now);
    }

    method RequestCancel(id: RunId, now: int) returns (accepted: bool)
      modifies this
      ensures runs == Execute(old(runs), Statement.RequestCancel(id), now)
      ensures accepted <==> id in old(runs) && (old(runs)[id].status == Queued || old(runs)[id].status == Running
                                                || old(runs)[id].status == Pushing)
      ensures runs == if !accepted then old(runs)
                      else if old(runs)[id].status == Queued
                      then old(runs)[id := old(runs)[id].(cancelRequested := true, status := Cancelled)]
                      else old(runs)[id := old(runs)[id].(cancelRequested := true)]
    {
      accepted := id in runs && Matches(runs[id], Statement.RequestCancel(id), id, now);
      runs := UpdateMatching(runs, Statement.RequestCancel(id), now);
    }
  }

  lemma {:induction false} OldestExists(runs: Runs, ids: set<RunId>)
    requires ids != {} && ids <= runs.Keys
    ensures exists id :: id in ids && forall other :: other in ids ==> runs[id].createdAt <= runs[other].createdAt
  {
    var id :| id in ids;
    if ids != {id} {
      OldestExists(runs, ids - {id});
      var best :| best in ids - {id} && forall other :: other in ids - {id} ==>
          runs[best].createdAt <= runs[other].createdAt;
      if runs[id].createdAt <= runs[best].createdAt {
        assert forall other :: other in ids ==> runs[id].createdAt <= runs[other].createdAt;
      } else {
        assert forall other :: other in ids ==> runs[best].createdAt <= runs[other].createdAt;
      }
    }
  }

  // ---------------------------------------------------------------------------------------------------------------
  // What the statements keep on their own, whoever issues them.

  ghost predicate RowSound(run: Run) {
    && (run.status == Queued ==> run.worker.None? && run.lease.None?)
    && (Active(run) ==> run.worker.Some? && run.lease.Some?)
    && (Terminal(run) ==> run.lease.None? && (run.status == Cancelled <==> run.cancelRequested))
  }

  ghost predicate TableSound(runs: Runs) {
    && (forall id :: id in runs ==> RowSound(runs[id]))
    && (forall a, b :: a in runs && b in runs && runs[a].key == runs[b].key ==> a == b)
  }

  lemma UpdateKeepsRow(run: Run, stmt: Statement, id: RunId, now: int)
    requires RowSound(run) && Matches(run, stmt, id, now)
    ensures RowSound(Updated(run, stmt, now))
    ensures Updated(run, stmt, now).key == run.key && Updated(run, stmt, now).attempt >= run.attempt
  {
  }

  /** No statement breaks a row, loses a row, renames a key or admits a second run under one key. */
  lemma StatementKeepsTable(runs: Runs, stmt: Statement, now: int)
    requires TableSound(runs)
    ensures TableSound(Execute(runs, stmt, now))
    ensures runs.Keys <= Execute(runs, stmt, now).Keys
    ensures forall id :: id in runs ==>
              Execute(runs, stmt, now)[id].key == runs[id].key
                  && Execute(runs, stmt, now)[id].attempt >= runs[id].attempt
  {
    hide Updated, Matches, RowSound;
    if stmt.Create? {
      CreateKeepsTable(runs, stmt, now);
    } else {
      forall id | id in runs && Matches(runs[id], stmt, id, now)
        ensures RowSound(Updated(runs[id], stmt, now))
        ensures Updated(runs[id], stmt, now).key == runs[id].key
                  && Updated(runs[id], stmt, now).attempt >= runs[id].attempt
      {
        UpdateKeepsRow(runs[id], stmt, id, now);
      }
    }
  }

  lemma CreateKeepsTable(runs: Runs, stmt: Statement, now: int)
    requires TableSound(runs) && stmt.Create?
    ensures TableSound(Execute(runs, stmt, now))
    ensures forall id :: id in runs ==> id in Execute(runs, stmt, now) && Execute(runs, stmt, now)[id] == runs[id]
  {
  }

  /** While a lease is unexpired, only its holder changes the status, the worker or the lease of the run. */
  lemma UnexpiredLeaseIsHeld(runs: Runs, stmt: Statement, now: int, id: RunId)
    requires TableSound(runs) && id in runs && Active(runs[id]) && !Expired(runs[id], now)
    ensures var run, run' := runs[id], Execute(runs, stmt, now)[id];
            && (run'.status != run.status || run'.worker != run.worker || run'.lease != run.lease ==>
                  && (stmt.Heartbeat? || stmt.MarkPushing? || stmt.Complete? || stmt.Fail?)
                  && stmt.id == id && run.worker == Some(stmt.worker))
            && run'.worker == run.worker && run'.attempt == run.attempt
  {
  }

  /** An expired lease is taken back by the next recovery, and a late holder then matches nothing. */
  lemma RecoveryFencesHolder(runs: Runs, now: int, id: RunId, stmt: Statement, later: int)
    requires TableSound(runs) && id in runs && Expired(runs[id], now)
    requires stmt.Heartbeat? || stmt.MarkPushing? || stmt.Complete? || stmt.Fail?
    ensures var recovered := Execute(runs, RecoverExpiredLeases, now);
            recovered[id].status == Queued && Execute(recovered, stmt, later)[id] == recovered[id]
  {
  }

  /**
   * A statement changes the status of a terminal run exactly when it is a contradicting result from the recorded
   * worker.
   */
  lemma TerminalStatusChangesIff(runs: Runs, stmt: Statement, now: int, id: RunId)
    requires TableSound(runs) && id in runs && Terminal(runs[id])
    ensures Execute(runs, stmt, now)[id].status != runs[id].status <==>
              && ((stmt.Complete? && runs[id].status == Failed) || (stmt.Fail? && runs[id].status == Succeeded))
              && stmt.id == id && runs[id].worker == Some(stmt.worker)
  {
    assert RowSound(runs[id]);
  }

  // ---------------------------------------------------------------------------------------------------------------
  // What the worker loop adds.

  /**
   * A slot works on at most one run at a time. A crashed slot keeps its last run until a process starts again under
   * its id.
   */
  datatype Slot = Slot(work: Option<RunId>, alive: bool)

  datatype System = System(now: int, runs: Runs, slots: map<WorkerId, Slot>, pushes: map<RunId, nat>)

  datatype Event = Issue(stmt: Statement) | Tick(elapsed: nat) | Crash(worker: WorkerId) | Start(worker: WorkerId)
    | Restart(worker: WorkerId)

  predicate WorksOn(s: System, worker: WorkerId, id: RunId) {
    worker in s.slots && s.slots[worker].alive && s.slots[worker].work == Some(id)
  }

  /** The loop: claim only when idle, then report exactly once. Anyone may create, cancel or recover. */
  ghost predicate Allowed(s: System, event: Event) {
    match event
    case Tick(_) => true
    case Start(worker) => worker !in s.slots
    case Restart(worker) => worker in s.slots && !s.slots[worker].alive
    case Crash(worker) => worker in s.slots
    case Issue(stmt) =>
      match stmt
      case Create(id, _) => id !in s.runs
      case Claim(id, worker, _) =>
        && worker in s.slots && s.slots[worker].alive && s.slots[worker].work.None?
        && id in s.runs && s.runs[id].status == Queued
      case Heartbeat(id, worker, _) => worker in s.slots && s.slots[worker].alive
      case MarkPushing(id, worker) => WorksOn(s, worker, id)
      case Complete(id, worker) => WorksOn(s, worker, id)
      case Fail(id, worker) => WorksOn(s, worker, id)
      case RecoverExpiredLeases => true
      case RequestCancel(_) => true
  }

  function SlotsAfter(slots: map<WorkerId, Slot>, stmt: Statement): map<WorkerId, Slot> {
    match stmt
    case Claim(id, worker, _) => slots[worker := Slot(Some(id), true)]
    case Complete(_, worker) => slots[worker := Slot(None, true)]
    case Fail(_, worker) => slots[worker := Slot(None, true)]
    case _ => slots
  }

  predicate Pushes(runs: Runs, stmt: Statement) {
    stmt.MarkPushing? && stmt.id in runs && runs[stmt.id].worker == Some(stmt.worker) && runs[stmt.id].status == Running
  }

  function Count(pushes: map<RunId, nat>, id: RunId): nat { if id in pushes then pushes[id] else 0 }

  ghost function After(s: System, event: Event): System
    requires Allowed(s, event)
  {
    match event
    case Tick(elapsed) => s.(now := s.now + elapsed)
    case Start(worker) => s.(slots := s.slots[worker := Slot(None, true)])
    case Restart(worker) => s.(slots := s.slots[worker := Slot(None, true)])
    case Crash(worker) => s.(slots := s.slots[worker := s.slots[worker].(alive := false)])
    case Issue(stmt) =>
      s.(runs := Execute(s.runs, stmt, s.now),
         slots := SlotsAfter(s.slots, stmt),
         pushes := if Pushes(s.runs, stmt) then s.pushes[stmt.id := Count(s.pushes, stmt.id) + 1] else s.pushes)
  }

  const EMPTY := System(0, map[], map[], map[])

  /** An active run is the one its worker's slot is on. Restarts break this, and nothing else does. */
  ghost predicate SlotsHold(s: System) {
    forall id :: id in s.runs && Active(s.runs[id]) ==>
      s.runs[id].worker.Some? && s.runs[id].worker.value in s.slots && s.slots[s.runs[id].worker.value].work == Some(id)
  }

  /** A slot is never on a run it has already closed. */
  ghost predicate SlotsSound(s: System) {
    forall worker :: worker in s.slots && s.slots[worker].work.Some? ==>
      var id := s.slots[worker].work.value;
      id in s.runs && (Terminal(s.runs[id]) ==> s.runs[id].worker != Some(worker))
  }

  ghost predicate PushesSound(s: System) {
    && (forall id :: id in s.pushes ==> id in s.runs)
    && (forall id :: id in s.runs ==>
          && Count(s.pushes, id) <= s.runs[id].attempt
          && (s.runs[id].status == Running ==> Count(s.pushes, id) < s.runs[id].attempt))
  }

  ghost predicate Inv(s: System) {
    TableSound(s.runs) && SlotsSound(s) && PushesSound(s)
  }

  lemma StatementKeepsHolder(s: System, stmt: Statement, id: RunId)
    requires TableSound(s.runs) && SlotsHold(s) && Allowed(s, Issue(stmt))
    requires id in After(s, Issue(stmt)).runs && Active(After(s, Issue(stmt)).runs[id])
    ensures var s' := After(s, Issue(stmt));
            var worker := s'.runs[id].worker;
            worker.Some? && worker.value in s'.slots && s'.slots[worker.value].work == Some(id)
  {
    if id in s.runs {
      assert RowSound(s.runs[id]);
    }
  }

  lemma StatementKeepsWork(s: System, stmt: Statement, worker: WorkerId)
    requires Inv(s) && Allowed(s, Issue(stmt))
    requires worker in After(s, Issue(stmt)).slots && After(s, Issue(stmt)).slots[worker].work.Some?
    ensures var s' := After(s, Issue(stmt));
            var id := s'.slots[worker].work.value;
            id in s'.runs && (Terminal(s'.runs[id]) ==> s'.runs[id].worker != Some(worker))
  {
    var id := After(s, Issue(stmt)).slots[worker].work.value;
    assert id in s.runs;
    assert RowSound(s.runs[id]);
  }

  lemma EventKeepsSlots(s: System, event: Event)
    requires Inv(s) && Allowed(s, event)
    ensures SlotsSound(After(s, event))
  {
    if event.Issue? {
      hide After, Allowed, Inv;
      var s' := After(s, event);
      forall worker | worker in s'.slots && s'.slots[worker].work.Some?
        ensures s'.slots[worker].work.value in s'.runs
        ensures Terminal(s'.runs[s'.slots[worker].work.value]) ==>
                  s'.runs[s'.slots[worker].work.value].worker != Some(worker)
      {
        StatementKeepsWork(s, event.stmt, worker);
      }
    }
  }

  /** An active run is assigned to the worker. */
  ghost predicate Named(runs: Runs, worker: WorkerId) {
    exists id :: id in runs && Active(runs[id]) && runs[id].worker == Some(worker)
  }

  /**
   * Every event but a restart keeps the slots' hold on their runs; a restart keeps it exactly when no active run
   * names the id.
   */
  lemma EventKeepsHoldIff(s: System, event: Event)
    requires Inv(s) && SlotsHold(s) && Allowed(s, event)
    ensures SlotsHold(After(s, event)) <==> !(event.Restart? && Named(s.runs, event.worker))
  {
    if event.Issue? {
      hide After, Allowed, Named;
      var s' := After(s, event);
      forall id | id in s'.runs && Active(s'.runs[id])
        ensures s'.runs[id].worker.Some? && s'.runs[id].worker.value in s'.slots
                  && s'.slots[s'.runs[id].worker.value].work == Some(id)
      {
        StatementKeepsHolder(s, event.stmt, id);
      }
    }
  }

  /** After such a restart the slot may claim a second run while its first is still active. */
  lemma RestartTakesSecondRun(s: System, worker: WorkerId, first: RunId, second: RunId, key: string)
    requires TableSound(s.runs) && Allowed(s, Restart(worker))
    requires first in s.runs && Active(s.runs[first]) && s.runs[first].worker == Some(worker)
    requires second !in s.runs && !KeyTaken(s.runs, key)
    ensures var s1 := After(s, Restart(worker));
            && Allowed(s1, Issue(Create(second, key)))
            && var s2 := After(s1, Issue(Create(second, key)));
               && Allowed(s2, Issue(Claim(second, worker, 0)))
               && var s3 := After(s2, Issue(Claim(second, worker, 0)));
                  && first in s3.runs && second in s3.runs && first != second && Active(s3.runs[first])
                      && Active(s3.runs[second])
                  && s3.runs[first].worker == s3.runs[second].worker == Some(worker)
  {
  }

  /** One row: a successful push uses up the claim it belongs to. */
  lemma StatementKeepsPushes(s: System, stmt: Statement, id: RunId)
    requires Inv(s) && Allowed(s, Issue(stmt)) && id in After(s, Issue(stmt)).runs
    ensures var s' := After(s, Issue(stmt));
            && Count(s'.pushes, id) <= s'.runs[id].attempt
            && (s'.runs[id].status == Running ==> Count(s'.pushes, id) < s'.runs[id].attempt)
  {
    if id in s.runs {
      assert Count(s.pushes, id) <= s.runs[id].attempt;
    } else {
      assert id !in s.pushes;
    }
  }

  lemma EventKeepsPushes(s: System, event: Event)
    requires Inv(s) && Allowed(s, event)
    ensures PushesSound(After(s, event))
  {
    if event.Issue? {
      StatementKeepsTable(s.runs, event.stmt, s.now);
      forall id | id in After(s, event).runs
        ensures Count(After(s, event).pushes, id) <= After(s, event).runs[id].attempt
        ensures After(s, event).runs[id].status == Running ==>
                  Count(After(s, event).pushes, id) < After(s, event).runs[id].attempt
      {
        StatementKeepsPushes(s, event.stmt, id);
      }
    }
  }

  lemma EventKeepsInv(s: System, event: Event)
    requires Inv(s) && Allowed(s, event)
    ensures Inv(After(s, event))
    ensures s.runs.Keys <= After(s, event).runs.Keys
  {
    EventKeepsSlots(s, event);
    EventKeepsPushes(s, event);
    if event.Issue? {
      StatementKeepsTable(s.runs, event.stmt, s.now);
    }
  }

  /** Under the loop's discipline a terminal run never changes status again. */
  lemma EventKeepsTerminal(s: System, event: Event, id: RunId)
    requires Inv(s) && Allowed(s, event) && id in s.runs && Terminal(s.runs[id])
    ensures id in After(s, event).runs && After(s, event).runs[id].status == s.runs[id].status
  {
    if event.Issue? {
      TerminalStatusChangesIff(s.runs, event.stmt, s.now, id);
    }
  }

  /** A history: the states and the events between them, from the empty system. */
  ghost predicate History(states: seq<System>, events: seq<Event>) {
    && |states| == |events| + 1 && states[0] == EMPTY
    && forall i :: 0 <= i < |events| ==> Allowed(states[i], events[i]) && states[i + 1] == After(states[i], events[i])
  }

  lemma EmptyIsSound()
    ensures Inv(EMPTY)
  {
  }

  lemma {:induction false} HistoryKeepsInv(states: seq<System>, events: seq<Event>, i: nat)
    requires History(states, events) && i < |states|
    ensures Inv(states[i])
  {
    hide After, Allowed;
    if i == 0 {
      EmptyIsSound();
    } else {
      HistoryKeepsInv(states, events, i - 1);
      assert states[i - 1 + 1] == After(states[i - 1], events[i - 1]);
      EventKeepsInv(states[i - 1], events[i - 1]);
    }
  }

  /** In every history: a terminal run stays as it is for ever. */
  lemma {:induction false} TerminalIsForever(states: seq<System>, events: seq<Event>, i: nat, j: nat, id: RunId)
    requires History(states, events) && i <= j < |states|
    requires id in states[i].runs && Terminal(states[i].runs[id])
    ensures id in states[j].runs && states[j].runs[id].status == states[i].runs[id].status
    decreases j
  {
    hide After, Allowed, Inv;
    if i < j {
      TerminalIsForever(states, events, i, j - 1, id);
      HistoryKeepsInv(states, events, j - 1);
      assert states[j - 1 + 1] == After(states[j - 1], events[j - 1]);
      EventKeepsTerminal(states[j - 1], events[j - 1], id);
    }
  }

  /** No id starts again while an active run still names it. */
  ghost predicate CleanRestarts(states: seq<System>, events: seq<Event>, i: nat) {
    forall j :: 0 <= j < i && j < |events| && j < |states| && events[j].Restart? ==>
        !Named(states[j].runs, events[j].worker)
  }

  lemma {:induction false} CleanRestartsHold(states: seq<System>, events: seq<Event>, i: nat)
    requires History(states, events) && i < |states| && CleanRestarts(states, events, i)
    ensures SlotsHold(states[i])
  {
    hide After, Allowed, Named, Inv;
    if i > 0 {
      CleanRestartsHold(states, events, i - 1);
      HistoryKeepsInv(states, events, i - 1);
      assert states[i - 1 + 1] == After(states[i - 1], events[i - 1]);
      EventKeepsHoldIff(states[i - 1], events[i - 1]);
    }
  }

  /** As long as no id starts again while an active run names it, each slot has at most one active run. */
  lemma OneRunPerSlot(states: seq<System>, events: seq<Event>, i: nat, a: RunId, b: RunId)
    requires History(states, events) && i < |states| && CleanRestarts(states, events, i)
    requires a in states[i].runs && b in states[i].runs && Active(states[i].runs[a]) && Active(states[i].runs[b])
    requires states[i].runs[a].worker == states[i].runs[b].worker
    ensures a == b
  {
    hide After, Allowed;
    CleanRestartsHold(states, events, i);
  }

  /** In every history: one run per key, pushes never exceed claims, and a closed run is cancelled iff asked to be. */
  lemma HistoryProperties(states: seq<System>, events: seq<Event>, i: nat, a: RunId, b: RunId)
    requires History(states, events) && i < |states| && a in states[i].runs && b in states[i].runs
    ensures var run := states[i].runs;
            && (run[a].key == run[b].key ==> a == b)
            && Count(states[i].pushes, a) <= run[a].attempt
            && (Terminal(run[a]) ==> (run[a].status == Cancelled <==> run[a].cancelRequested))
            && (run[a].status == Queued ==> run[a].worker.None? && run[a].lease.None?)
            && (Active(run[a]) ==> run[a].worker.Some? && run[a].lease.Some?)
  {
    hide After, Allowed;
    HistoryKeepsInv(states, events, i);
    assert RowSound(states[i].runs[a]);
  }

  // ---------------------------------------------------------------------------------------------------------------
  // Pushing within one claim.

  /** The event is a push of the run that goes through. */
  ghost predicate PushesAt(states: seq<System>, events: seq<Event>, i: nat, id: RunId) {
    i < |events| && i < |states| && events[i].Issue? && Pushes(states[i].runs, events[i].stmt)
        && events[i].stmt.id == id
  }

  /**
   * One statement: only a claim makes a run running, and it counts an attempt; only it assigns a worker; attempts
   * never fall.
   */
  lemma OnlyClaimsRun(runs: Runs, stmt: Statement, now: int, id: RunId)
    requires id in runs && (stmt.Create? ==> stmt.id !in runs)
    ensures var run, run' := runs[id], Execute(runs, stmt, now)[id];
            && run'.attempt >= run.attempt
            && (run'.status == Running && run.status != Running ==> run'.attempt > run.attempt)
            && (run' == run || (stmt.Claim? && stmt.id == id && run'.worker == Some(stmt.worker))
                || (run'.attempt == run.attempt && (run'.worker == run.worker || run'.worker.None?)))
  {
  }

  /** Since a push, the run is not running again unless it was claimed again. */
  lemma {:induction false} NotRunningUntilClaimed(states: seq<System>, events: seq<Event>, i: nat, j: nat, id: RunId)
    requires History(states, events) && i < j < |states| && PushesAt(states, events, i, id)
    ensures id in states[i].runs && id in states[j].runs && states[j].runs[id].attempt >= states[i].runs[id].attempt
    ensures states[j].runs[id].status == Running ==> states[j].runs[id].attempt > states[i].runs[id].attempt
  {
    if j == i + 1 {
      assert states[i + 1] == After(states[i], events[i]);
    } else {
      NotRunningUntilClaimed(states, events, i, j - 1, id);
      assert states[j - 1 + 1] == After(states[j - 1], events[j - 1]);
      if events[j - 1].Issue? {
        OnlyClaimsRun(states[j - 1].runs, events[j - 1].stmt, states[j - 1].now, id);
      }
    }
  }

  /** Two pushes of a run that both go through belong to different claims. */
  lemma OnePushPerClaim(states: seq<System>, events: seq<Event>, i: nat, j: nat, id: RunId)
    requires History(states, events) && i < j < |events| && PushesAt(states, events, i, id)
              && PushesAt(states, events, j, id)
    ensures states[j].runs[id].attempt > states[i].runs[id].attempt
  {
    NotRunningUntilClaimed(states, events, i, j, id);
  }

  /** The worker claims the run at `c` and claims nothing else before `j`: the loop executes this claim in between. */
  ghost predicate Executing(events: seq<Event>, c: nat, j: nat, id: RunId, worker: WorkerId) {
    && c < j <= |events| && events[c].Issue? && events[c].stmt.Claim? && events[c].stmt.id == id
        && events[c].stmt.worker == worker
    && forall k :: c < k < j ==> !(events[k].Issue? && events[k].stmt.Claim? && events[k].stmt.worker == worker)
  }

  /** While it executes, the worker holds the run only under the attempt it claimed. */
  lemma {:induction false} HeldUnderClaim(states: seq<System>, events: seq<Event>, c: nat, j: nat, id: RunId,
                                          worker: WorkerId)
    requires History(states, events) && Executing(events, c, j, id, worker)
    ensures id in states[c + 1].runs && id in states[j].runs
    ensures states[j].runs[id].worker == Some(worker) ==> states[j].runs[id].attempt == states[c + 1].runs[id].attempt
  {
    assert states[j - 1 + 1] == After(states[j - 1], events[j - 1]);
    if j > c + 1 {
      HeldUnderClaim(states, events, c, j - 1, id, worker);
      if events[j - 1].Issue? {
        OnlyClaimsRun(states[j - 1].runs, events[j - 1].stmt, states[j - 1].now, id);
      }
    }
  }

  /** Of all pushes a worker asks for while it executes one claim, at most one goes through. */
  lemma OnePushPerExecution(states: seq<System>, events: seq<Event>, c: nat, i: nat, j: nat, id: RunId,
                            worker: WorkerId)
    requires History(states, events) && Executing(events, c, j, id, worker) && c < i < j < |events|
    requires PushesAt(states, events, i, id) && events[i].stmt.worker == worker
    requires events[j].Issue? && events[j].stmt.MarkPushing? && events[j].stmt.worker == worker
    ensures !PushesAt(states, events, j, id)
  {
    HeldUnderClaim(states, events, c, i, id, worker);
    HeldUnderClaim(states, events, c, j, id, worker);
    if PushesAt(states, events, j, id) {
      OnePushPerClaim(states, events, i, j, id);
    }
  }

  /** Without the discipline the statements alone let a closed run flip. */
  lemma ClosedRunFlipsWithoutLoop()
    ensures exists runs: Runs, id: RunId, worker: WorkerId, now: int ::
              && TableSound(runs) && id in runs && runs[id].status == Succeeded
              && Execute(runs, Fail(id, worker), now)[id].status == Failed
  {
    var runs := map["r" := Run("k", Succeeded, Some("w"), None, 1, false, 0)];
    assert TableSound(runs);
    TerminalStatusChangesIff(runs, Fail("r", "w"), 0, "r");
    assert Execute(runs, Fail("r", "w"), 0)["r"].status == Failed;
  }
}
