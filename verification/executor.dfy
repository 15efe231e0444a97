/** The wave executor: every ready step of a wave starts together, and their attempts then interleave freely. */
module Executor {
  import opened Workflow

  datatype Outcome = Succeeded | Failed | Skipped

  type Outcomes = map<StepId, Outcome>

  type Steps = map<StepId, Step>

  /** Whether a given attempt of a step succeeds: the commands themselves are foreign calls. */
  type Results = (StepId, nat) -> bool

  datatype Gate = Runs | Skips | Throws

  function ConditionMatches(value: string, outcomes: Outcomes): Gate {
    if value == "" || value == "success()" then
      if Failed in outcomes.Values then Skips else Runs
    else if value == "always()" then Runs
    else if value == "failure()" then
      if Failed in outcomes.Values then Runs else Skips
    else if value == "false" then Skips
    else if value == "true" then Runs
    else Throws
  }

  predicate NeedsSucceeded(step: Step, outcomes: Outcomes) {
    forall need :: need in step.needs ==> need in outcomes && outcomes[need] == Succeeded
  }

  predicate IsReady(step: Step, outcomes: Outcomes) {
    forall need :: need in step.needs ==> need in outcomes
  }

  function GateOf(step: Step, outcomes: Outcomes): Gate {
    if NeedsSucceeded(step, outcomes) then ConditionMatches(step.condition, outcomes) else Skips
  }

  /**
   * Where one step stands. `pending` holds the Pending ids and `outcomes` the Done ones; a step between the two is on
   * some attempt, or its condition threw. `wave` is the wave that took it out of `pending`.
   */
  datatype Status =
    | Pending
    | Running(wave: nat, attempt: nat)
    | Done(wave: nat, outcome: Outcome, attempts: nat)
    | Thrown(wave: nat)

  datatype Machine = Machine(status: map<StepId, Status>, wave: nat)

  function StepMap(steps: seq<Step>): (all: Steps)
    ensures all.Keys == GraphOf(steps).Keys
    ensures forall id :: id in all ==> all[id].id == id && all[id].needs == GraphOf(steps)[id]
  {
    if steps == [] then map[]
    else
      var last := steps[|steps| - 1];
      StepMap(steps[..|steps| - 1])[last.id := last]
  }

  function Initial(all: Steps): Machine {
    Machine(map id | id in all :: Pending, 0)
  }

  function OutcomesOf(m: Machine): Outcomes {
    map id | id in m.status && m.status[id].Done? :: m.status[id].outcome
  }

  function PendingOf(m: Machine): set<StepId> {
    set id | id in m.status && m.status[id].Pending?
  }

  predicate OnAttempt(m: Machine, id: StepId) {
    id in m.status && m.status[id].Running?
  }

  predicate InFlight(m: Machine) {
    exists id :: id in m.status && OnAttempt(m, id)
  }

  predicate IsRejection(status: Status) {
    status.Thrown? || (status.Done? && status.outcome == Failed)
  }

  predicate Rejected(m: Machine) {
    exists id :: id in m.status && IsRejection(m.status[id])
  }

  function Ready(all: Steps, m: Machine): set<StepId>
    requires m.status.Keys == all.Keys
  {
    set id | id in m.status && m.status[id].Pending? && IsReady(all[id], OutcomesOf(m))
  }

  function StartStatus(gate: Gate, wave: nat): Status {
    match gate
    case Skips => Done(wave, Skipped, 0)
    case Runs => Running(wave, 1)
    case Throws => Thrown(wave)
  }

  /** The synchronous part of `ready.map(...)`: every ready step passes its gate before any attempt finishes. */
  function BeginWave(all: Steps, m: Machine): (begun: Machine)
    requires m.status.Keys == all.Keys
    ensures begun.status.Keys == all.Keys
  {
    var ready := Ready(all, m);
    Machine(map id | id in m.status ::
              if id in ready then StartStatus(GateOf(all[id], OutcomesOf(m)), m.wave) else m.status[id],
            m.wave + 1)
  }

  /** The status of a step on `attempt` when that attempt finishes. */
  function FinishAttempt(step: Step, results: Results, wave: nat, attempt: nat): Status {
    if results(step.id, attempt) then Done(wave, Succeeded, attempt)
    else if attempt < step.retries + 1 then Running(wave, attempt + 1)
    else Done(wave, if step.continueOnError then Succeeded else Failed, attempt)
  }

  function Attempt(all: Steps, results: Results, m: Machine, id: StepId): Machine
    requires m.status.Keys == all.Keys && OnAttempt(m, id)
  {
    m.(status := m.status[id := FinishAttempt(all[id], results, m.status[id].wave, m.status[id].attempt)])
  }

  predicate CanBegin(all: Steps, m: Machine)
    requires m.status.Keys == all.Keys
  {
    !InFlight(m) && !Rejected(m) && Ready(all, m) != {}
  }

  /** Any interleaving: begin the next wave, or let any step in flight finish its current attempt. */
  ghost predicate Next(all: Steps, results: Results, m: Machine, m': Machine)
    requires m.status.Keys == all.Keys
  {
    || (CanBegin(all, m) && m' == BeginWave(all, m))
    || exists id :: OnAttempt(m, id) && m' == Attempt(all, results, m, id)
  }

  /** Where a step ends once it has used the attempts it needs. */
  function SettleStatus(step: Step, results: Results, status: Status): (settled: Status)
    ensures status.Running? ==> settled.Done? && settled.wave == status.wave && settled.outcome != Skipped
    ensures !status.Running? ==> settled == status
    decreases if status.Running? then step.retries + 1 - status.attempt else -1
  {
    if status.Running? then
      if results(step.id, status.attempt) || status.attempt >= step.retries + 1
      then FinishAttempt(step, results, status.wave, status.attempt)
      else SettleStatus(step, results, Running(status.wave, status.attempt + 1))
    else status
  }

  function Settle(all: Steps, results: Results, m: Machine): (settled: Machine)
    requires m.status.Keys == all.Keys
    ensures settled.status.Keys == all.Keys
  {
    m.(status := map id | id in m.status :: SettleStatus(all[id], results, m.status[id]))
  }

  /** Runs whole waves until a rejection or until nothing is ready. */
  function Drive(all: Steps, results: Results, m: Machine): (last: Machine)
    requires m.status.Keys == all.Keys
    ensures last.status.Keys == all.Keys
    decreases |PendingOf(m)|
  {
    if CanBegin(all, m) then
      var settled := Settle(all, results, BeginWave(all, m));
      WaveShrinksPending(all, results, m);
      Drive(all, results, settled)
    else m
  }

  /** The state in which every interleaving from `m` ends. */
  function Final(all: Steps, results: Results, m: Machine): (last: Machine)
    requires m.status.Keys == all.Keys
    ensures last.status.Keys == all.Keys
  {
    Drive(all, results, Settle(all, results, m))
  }

  lemma WaveShrinksPending(all: Steps, results: Results, m: Machine)
    requires m.status.Keys == all.Keys && CanBegin(all, m)
    ensures |PendingOf(Settle(all, results, BeginWave(all, m)))| < |PendingOf(m)|
  {
    var before := PendingOf(m);
    var after := PendingOf(Settle(all, results, BeginWave(all, m)));
    var id :| id in Ready(all, m);
    forall other | other in after ensures other in before && other != id {
      assert BeginWave(all, m).status[other].Pending?;
    }
    assert after <= before - {id};
    SubsetSize(after, before - {id});
    assert |before - {id}| == |before| - 1;
  }

  lemma {:induction false} SubsetSize(a: set<StepId>, b: set<StepId>)
    requires a <= b
    ensures |a| <= |b|
  {
    if x :| x in a {
      SubsetSize(a - {x}, b - {x});
    }
  }

  lemma SettleAbsorbsAttempt(all: Steps, results: Results, m: Machine, id: StepId)
    requires m.status.Keys == all.Keys && OnAttempt(m, id)
    ensures Settle(all, results, Attempt(all, results, m, id)) == Settle(all, results, m)
  {
    var after := FinishAttempt(all[id], results, m.status[id].wave, m.status[id].attempt);
    assert SettleStatus(all[id], results, after) == SettleStatus(all[id], results, m.status[id]);
  }

  lemma SettledIsUnchanged(all: Steps, results: Results, m: Machine)
    requires m.status.Keys == all.Keys && !InFlight(m)
    ensures Settle(all, results, m) == m
  {
    assert forall id :: id in m.status ==> SettleStatus(all[id], results, m.status[id]) == m.status[id];
  }

  /** Every interleaving step leads to the same final state. */
  lemma StepKeepsFinal(all: Steps, results: Results, m: Machine, m': Machine)
    requires m.status.Keys == all.Keys && Next(all, results, m, m')
    ensures m'.status.Keys == all.Keys && Final(all, results, m') == Final(all, results, m)
  {
    if CanBegin(all, m) && m' == BeginWave(all, m) {
      SettledIsUnchanged(all, results, m);
    } else {
      var id :| OnAttempt(m, id) && m' == Attempt(all, results, m, id);
      SettleAbsorbsAttempt(all, results, m, id);
    }
  }

  ghost predicate Trace(all: Steps, results: Results, trace: seq<Machine>) {
    && |trace| > 0
    && (forall i :: 0 <= i < |trace| ==> trace[i].status.Keys == all.Keys)
    && (forall i :: 0 < i < |trace| ==> Next(all, results, trace[i - 1], trace[i]))
  }

  /** No step of any kind is left. */
  ghost predicate Finished(all: Steps, m: Machine)
    requires m.status.Keys == all.Keys
  {
    !InFlight(m) && !CanBegin(all, m)
  }

  ghost predicate CanContinue(all: Steps, results: Results, m: Machine)
    requires m.status.Keys == all.Keys
  {
    exists m' :: Next(all, results, m, m')
  }

  lemma FinishedIffNoNext(all: Steps, results: Results, m: Machine)
    requires m.status.Keys == all.Keys
    ensures Finished(all, m) <==> !CanContinue(all, results, m)
  {
    if InFlight(m) {
      var id :| OnAttempt(m, id);
      assert Next(all, results, m, Attempt(all, results, m, id));
    } else if CanBegin(all, m) {
      assert Next(all, results, m, BeginWave(all, m));
    }
  }

  /**
   * However attempts interleave, every state of a run has the same final state, and a run that cannot go on stands
   * there.
   */
  lemma {:induction false} InterleavingsAgree(all: Steps, results: Results, trace: seq<Machine>)
    requires Trace(all, results, trace)
    ensures Final(all, results, trace[|trace| - 1]) == Final(all, results, trace[0])
    ensures Finished(all, trace[|trace| - 1]) ==> trace[|trace| - 1] == Final(all, results, trace[0])
  {
    var last := trace[|trace| - 1];
    if |trace| > 1 {
      var before := trace[..|trace| - 1];
      InterleavingsAgree(all, results, before);
      StepKeepsFinal(all, results, trace[|trace| - 2], last);
    }
    if Finished(all, last) {
      SettledIsUnchanged(all, results, last);
    }
  }

  // ---------------------------------------------------------------------------------------------------------------
  // Every interleaving ends.

  /** The interleaving steps a step of the workflow can still take part in. */
  function WorkLeft(step: Step, status: Status): nat {
    match status
    case Pending => step.retries + 2
    case Running(_, attempt) => if attempt <= step.retries then step.retries + 2 - attempt else 1
    case _ => 0
  }

  function TotalWork(all: Steps, m: Machine, ids: seq<StepId>): nat
    requires m.status.Keys == all.Keys && forall id :: id in ids ==> id in all
  {
    if ids == [] then 0 else WorkLeft(all[ids[0]], m.status[ids[0]]) + TotalWork(all, m, ids[1..])
  }

  predicate WorkFell(all: Steps, m: Machine, m': Machine, id: StepId)
    requires m.status.Keys == all.Keys && m'.status.Keys == all.Keys && id in all
  {
    WorkLeft(all[id], m'.status[id]) < WorkLeft(all[id], m.status[id])
  }

  lemma {:induction false} TotalFalls(all: Steps, m: Machine, m': Machine, ids: seq<StepId>)
    requires m.status.Keys == all.Keys && m'.status.Keys == all.Keys && forall id :: id in ids ==> id in all
    requires forall id :: id in ids ==> WorkFell(all, m, m', id) || m'.status[id] == m.status[id]
    ensures TotalWork(all, m', ids) <= TotalWork(all, m, ids)
    ensures (exists id :: id in ids && WorkFell(all, m, m', id)) ==> TotalWork(all, m', ids) < TotalWork(all, m, ids)
  {
    hide WorkLeft;
    if ids != [] {
      assert ids[0] in ids;
      TotalFalls(all, m, m', ids[1..]);
      if id :| id in ids && WorkFell(all, m, m', id) {
        assert id == ids[0] || id in ids[1..];
      }
    }
  }

  /** Every interleaving step lowers the work that is left. */
  lemma NextLowersWork(all: Steps, results: Results, m: Machine, m': Machine, ids: seq<StepId>)
    requires m.status.Keys == all.Keys && Next(all, results, m, m') && forall id :: id in ids <==> id in all
    ensures m'.status.Keys == all.Keys && TotalWork(all, m', ids) < TotalWork(all, m, ids)
  {
    hide TotalWork;
    if CanBegin(all, m) && m' == BeginWave(all, m) {
      var id :| id in Ready(all, m);
      assert WorkFell(all, m, m', id);
      forall other | other in ids ensures WorkFell(all, m, m', other) || m'.status[other] == m.status[other] {
        BeginningLowersWork(all, m, other);
      }
    } else {
      var id :| OnAttempt(m, id) && m' == Attempt(all, results, m, id);
      assert WorkFell(all, m, m', id);
    }
    TotalFalls(all, m, m', ids);
  }

  lemma BeginningLowersWork(all: Steps, m: Machine, id: StepId)
    requires m.status.Keys == all.Keys && id in all
    ensures WorkFell(all, m, BeginWave(all, m), id) || BeginWave(all, m).status[id] == m.status[id]
  {
  }

  /** The longest run there can be: one start and all its attempts for every step. */
  function AllWork(all: Steps, ids: seq<StepId>): nat
    requires forall id :: id in ids ==> id in all
  {
    if ids == [] then 0 else all[ids[0]].retries + 2 + AllWork(all, ids[1..])
  }

  lemma {:induction false} InitialWork(all: Steps, ids: seq<StepId>)
    requires forall id :: id in ids ==> id in all
    ensures TotalWork(all, Initial(all), ids) == AllWork(all, ids)
  {
    if ids != [] {
      InitialWork(all, ids[1..]);
    }
  }

  lemma {:induction false} TraceUsesWork(all: Steps, results: Results, trace: seq<Machine>, ids: seq<StepId>)
    requires Trace(all, results, trace) && forall id :: id in ids <==> id in all
    ensures TotalWork(all, trace[|trace| - 1], ids) + |trace| - 1 <= TotalWork(all, trace[0], ids)
  {
    hide Next, TotalWork;
    if |trace| > 1 {
      TraceUsesWork(all, results, trace[..|trace| - 1], ids);
      NextLowersWork(all, results, trace[|trace| - 2], trace[|trace| - 1], ids);
    }
  }

  /**
   * Every interleaving of a workflow's run ends: it has at most one start and `retries + 1` finished attempts for
   * each step, and where it cannot be continued it has reached the final state.
   */
  lemma EveryRunEnds(steps: seq<Step>, results: Results, trace: seq<Machine>)
    requires Trace(StepMap(steps), results, trace) && trace[0] == Initial(StepMap(steps))
    ensures |trace| <= 1 + AllWork(StepMap(steps), KeyOrder(steps))
    ensures !CanContinue(StepMap(steps), results, trace[|trace| - 1]) ==>
              trace[|trace| - 1] == Final(StepMap(steps), results, trace[0])
  {
    var all, ids := StepMap(steps), KeyOrder(steps);
    hide StepMap, KeyOrder, Next, Final, TotalWork, AllWork;
    TraceUsesWork(all, results, trace, ids);
    InitialWork(all, ids);
    InterleavingsAgree(all, results, trace);
    FinishedIffNoNext(all, results, trace[|trace| - 1]);
  }

  // ---------------------------------------------------------------------------------------------------------------
  // What every reachable state keeps.

  predicate SucceededIn(m: Machine, id: StepId) {
    id in m.status && m.status[id].Done? && m.status[id].outcome == Succeeded
  }

  predicate SkippedIn(m: Machine, id: StepId) {
    id in m.status && m.status[id].Done? && m.status[id].outcome == Skipped
  }

  predicate DecidedBefore(m: Machine, id: StepId, wave: int) {
    id in m.status && m.status[id].Done? && m.status[id].wave < wave
  }

  predicate DecidedExactly(m: Machine, id: StepId, wave: int) {
    id in m.status && m.status[id].Done? && m.status[id].wave == wave
  }

  /** A step that left `pending` in a given wave: its needs were all decided before, one of them just before. */
  ghost predicate StartedSoundly(step: Step, m: Machine, wave: nat)
    requires step.id in m.status
  {
    && wave < m.wave
    && (forall need :: need in step.needs ==> DecidedBefore(m, need, wave))
    && (wave > 0 ==> exists need :: need in step.needs && DecidedExactly(m, need, wave - 1))
    && (SkippedIn(m, step.id) || forall need :: need in step.needs ==> SucceededIn(m, need))
  }

  /** A step still pending had a need without an outcome when the last wave began. */
  ghost predicate HeldBack(step: Step, m: Machine) {
    m.wave > 0 ==> exists need :: need in step.needs && !DecidedBefore(m, need, m.wave - 1)
  }

  ghost predicate StatusSound(step: Step, m: Machine)
    requires step.id in m.status
  {
    match m.status[step.id]
    case Pending => HeldBack(step, m)
    case Running(wave, attempt) => wave == m.wave - 1 && 1 <= attempt <= step.retries + 1
        && StartedSoundly(step, m, wave)
    case Done(wave, outcome, attempts) =>
      && attempts <= step.retries + 1 && (outcome == Skipped <==> attempts == 0)
      && (outcome == Failed ==> wave == m.wave - 1)
      && StartedSoundly(step, m, wave)
    case Thrown(wave) => wave == m.wave - 1 && StartedSoundly(step, m, wave)
  }

  ghost predicate WellKeyed(all: Steps) {
    forall id :: id in all ==> all[id].id == id
  }

  ghost predicate Inv(all: Steps, m: Machine) {
    && WellKeyed(all)
    && m.status.Keys == all.Keys
    && forall id :: id in m.status ==> StatusSound(all[id], m)
  }

  lemma InitialInv(all: Steps)
    requires WellKeyed(all)
    ensures Inv(all, Initial(all))
  {
  }

  lemma NewWaveStatus(all: Steps, m: Machine, id: StepId)
    requires Inv(all, m) && CanBegin(all, m) && id in all
    ensures m.status[id].Done? ==> BeginWave(all, m).status[id] == m.status[id]
    ensures !m.status[id].Pending? ==> m.status[id].Done? && m.status[id].outcome != Failed
    ensures m.status[id].Pending? && BeginWave(all, m).status[id].Done? ==>
              BeginWave(all, m).status[id] == Done(m.wave, Skipped, 0)
  {
    assert !OnAttempt(m, id) && !IsRejection(m.status[id]);
  }

  lemma ReadyNeedsAreDecided(all: Steps, m: Machine, id: StepId, need: StepId)
    requires Inv(all, m) && CanBegin(all, m) && id in Ready(all, m) && need in all[id].needs
    ensures need in all && m.status[need].Done? && DecidedBefore(m, need, m.wave)
    ensures BeginWave(all, m).status[need] == m.status[need]
  {
    assert need in OutcomesOf(m);
    NewWaveStatus(all, m, need);
    assert StatusSound(all[need], m);
  }

  lemma ReadyFollowsLastWave(all: Steps, m: Machine, id: StepId)
    requires Inv(all, m) && CanBegin(all, m) && id in Ready(all, m) && m.wave > 0
    ensures exists need :: need in all[id].needs && DecidedExactly(BeginWave(all, m), need, m.wave - 1)
  {
    assert StatusSound(all[id], m);
    var need :| need in all[id].needs && !DecidedBefore(m, need, m.wave - 1);
    ReadyNeedsAreDecided(all, m, id, need);
    assert DecidedExactly(BeginWave(all, m), need, m.wave - 1);
  }

  lemma ReadyIsGated(all: Steps, m: Machine, id: StepId)
    requires Inv(all, m) && CanBegin(all, m) && id in Ready(all, m)
    ensures SkippedIn(BeginWave(all, m), id) || forall need :: need in all[id].needs ==>
              SucceededIn(BeginWave(all, m), need)
  {
    if NeedsSucceeded(all[id], OutcomesOf(m)) {
      forall need | need in all[id].needs ensures SucceededIn(BeginWave(all, m), need) {
        ReadyNeedsAreDecided(all, m, id, need);
      }
    }
  }

  lemma BeginWaveStartsSoundly(all: Steps, m: Machine, id: StepId)
    requires Inv(all, m) && CanBegin(all, m) && id in Ready(all, m)
    ensures StatusSound(all[id], BeginWave(all, m))
  {
    var m' := BeginWave(all, m);
    forall need | need in all[id].needs ensures DecidedBefore(m', need, m.wave) {
      ReadyNeedsAreDecided(all, m, id, need);
    }
    if m.wave > 0 {
      ReadyFollowsLastWave(all, m, id);
    }
    ReadyIsGated(all, m, id);
  }

  /** Decided steps keep their status. */
  ghost predicate KeepsDecided(m: Machine, m': Machine) {
    && m'.wave >= m.wave && m'.status.Keys == m.status.Keys
    && (forall id :: id in m.status && m.status[id].Done? ==> m'.status[id] == m.status[id])
  }

  lemma StartedSoundlyStays(step: Step, m: Machine, m': Machine, wave: nat)
    requires step.id in m.status && KeepsDecided(m, m') && StartedSoundly(step, m, wave)
    ensures StartedSoundly(step, m', wave)
  {
    forall need | need in step.needs ensures DecidedBefore(m', need, wave) {
      assert DecidedBefore(m, need, wave);
    }
    if wave > 0 {
      var need :| need in step.needs && DecidedExactly(m, need, wave - 1);
      assert DecidedExactly(m', need, wave - 1);
    }
    if !SkippedIn(m, step.id) {
      forall need | need in step.needs ensures SucceededIn(m', need) {
        assert SucceededIn(m, need);
      }
    }
  }

  lemma BeginWaveKeepsDone(all: Steps, m: Machine, id: StepId)
    requires Inv(all, m) && CanBegin(all, m) && id in all && m.status[id].Done?
    ensures StatusSound(all[id], BeginWave(all, m))
  {
    forall other | other in all && m.status[other].Done? ensures BeginWave(all, m).status[other] == m.status[other] {
      NewWaveStatus(all, m, other);
    }
    NewWaveStatus(all, m, id);
    assert StatusSound(all[id], m);
    StartedSoundlyStays(all[id], m, BeginWave(all, m), m.status[id].wave);
  }

  lemma BeginWaveHoldsBack(all: Steps, m: Machine, id: StepId)
    requires Inv(all, m) && CanBegin(all, m) && id in all && m.status[id].Pending? && id !in Ready(all, m)
    ensures StatusSound(all[id], BeginWave(all, m))
  {
    var m' := BeginWave(all, m);
    var need :| need in all[id].needs && need !in OutcomesOf(m);
    if DecidedBefore(m', need, m.wave) {
      NewWaveStatus(all, m, need);
    }
  }

  lemma BeginWaveKeepsInv(all: Steps, m: Machine)
    requires Inv(all, m) && CanBegin(all, m)
    ensures Inv(all, BeginWave(all, m)) && BeginWave(all, m).wave == m.wave + 1
  {
    forall id | id in all
      ensures StatusSound(all[id], BeginWave(all, m))
    {
      NewWaveStatus(all, m, id);
      if id in Ready(all, m) {
        BeginWaveStartsSoundly(all, m, id);
      } else if m.status[id].Pending? {
        BeginWaveHoldsBack(all, m, id);
      } else {
        BeginWaveKeepsDone(all, m, id);
      }
    }
  }

  /** More steps of the current wave are decided, and nothing about decided steps changes. */
  ghost predicate DecidesMore(m: Machine, m': Machine) {
    && KeepsDecided(m, m') && m'.wave == m.wave
    && (forall id :: id in m.status && m'.status[id].Done? && !m.status[id].Done? ==> m'.status[id].wave == m.wave - 1)
  }

  lemma HeldBackStays(step: Step, m: Machine, m': Machine)
    requires step.id in m.status && DecidesMore(m, m') && HeldBack(step, m)
    ensures HeldBack(step, m')
  {
    if m.wave > 0 {
      var need :| need in step.needs && !DecidedBefore(m, need, m.wave - 1);
      assert !DecidedBefore(m', need, m.wave - 1);
    }
  }

  lemma AttemptDecidesMore(all: Steps, results: Results, m: Machine, id: StepId)
    requires Inv(all, m) && OnAttempt(m, id)
    ensures DecidesMore(m, Attempt(all, results, m, id))
  {
    assert StatusSound(all[id], m);
  }

  lemma AttemptKeepsStatusSound(all: Steps, results: Results, m: Machine, id: StepId, other: StepId)
    requires Inv(all, m) && OnAttempt(m, id) && other in all
    ensures StatusSound(all[other], Attempt(all, results, m, id))
  {
    hide StartedSoundly, HeldBack;
    var m' := Attempt(all, results, m, id);
    AttemptDecidesMore(all, results, m, id);
    assert StatusSound(all[other], m);
    if m.status[other].Pending? {
      HeldBackStays(all[other], m, m');
    } else {
      StartedSoundlyStays(all[other], m, m', m.status[other].wave);
    }
  }

  /** Every step of every interleaving keeps the invariant. */
  lemma StepKeepsInv(all: Steps, results: Results, m: Machine, m': Machine)
    requires Inv(all, m) && Next(all, results, m, m')
    ensures Inv(all, m')
  {
    if CanBegin(all, m) && m' == BeginWave(all, m) {
      BeginWaveKeepsInv(all, m);
    } else {
      var id :| OnAttempt(m, id) && m' == Attempt(all, results, m, id);
      forall other | other in all ensures StatusSound(all[other], m') {
        AttemptKeepsStatusSound(all, results, m, id, other);
      }
    }
  }

  lemma {:induction false} SettledAttemptsBounded(step: Step, results: Results, status: Status)
    requires status.Running? && 1 <= status.attempt <= step.retries + 1
    ensures SettleStatus(step, results, status).Done?
    ensures 1 <= SettleStatus(step, results, status).attempts <= step.retries + 1
    decreases step.retries + 1 - status.attempt
  {
    if !results(step.id, status.attempt) && status.attempt < step.retries + 1 {
      SettledAttemptsBounded(step, results, Running(status.wave, status.attempt + 1));
    }
  }

  lemma SettleKeepsInv(all: Steps, results: Results, m: Machine)
    requires Inv(all, m)
    ensures Inv(all, Settle(all, results, m)) && !InFlight(Settle(all, results, m))
    ensures Settle(all, results, m).wave == m.wave
  {
    var m' := Settle(all, results, m);
    forall id | id in all
      ensures m.status[id].Done? ==> m'.status[id] == m.status[id]
      ensures m'.status[id].Done? && !m.status[id].Done? ==> m'.status[id].wave == m.wave - 1
    {
      assert StatusSound(all[id], m);
    }
    assert DecidesMore(m, m');
    forall id | id in all ensures StatusSound(all[id], m') {
      assert StatusSound(all[id], m);
      if m.status[id].Pending? {
        HeldBackStays(all[id], m, m');
      } else {
        StartedSoundlyStays(all[id], m, m', m.status[id].wave);
        if m.status[id].Running? {
          SettledAttemptsBounded(all[id], results, m.status[id]);
        }
      }
    }
  }

  lemma {:induction false} DriveKeepsInv(all: Steps, results: Results, m: Machine)
    requires Inv(all, m) && !InFlight(m)
    ensures Inv(all, Drive(all, results, m)) && Finished(all, Drive(all, results, m))
    decreases |PendingOf(m)|
  {
    if CanBegin(all, m) {
      BeginWaveKeepsInv(all, m);
      SettleKeepsInv(all, results, BeginWave(all, m));
      WaveShrinksPending(all, results, m);
      DriveKeepsInv(all, results, Settle(all, results, BeginWave(all, m)));
    }
  }

  /** The final state of any run is reachable-sound and finished. */
  lemma FinalIsSound(all: Steps, results: Results, m: Machine)
    requires Inv(all, m)
    ensures Inv(all, Final(all, results, m)) && Finished(all, Final(all, results, m))
  {
    SettleKeepsInv(all, results, m);
    DriveKeepsInv(all, results, Settle(all, results, m));
  }

  // ---------------------------------------------------------------------------------------------------------------
  // What validation buys.

  ghost predicate Deadlocked(all: Steps, m: Machine)
    requires m.status.Keys == all.Keys
  {
    !InFlight(m) && !Rejected(m) && PendingOf(m) != {} && Ready(all, m) == {}
  }

  lemma AcceptedNeedsAreSteps(steps: seq<Step>, id: StepId, need: StepId)
    requires KnownNeeds(steps) && id in GraphOf(steps) && need in GraphOf(steps)[id]
    ensures need in GraphOf(steps) && Edge(GraphOf(steps), id, need)
  {
    var i :| 0 <= i < |steps| && steps[i].id == id && steps[i].needs == GraphOf(steps)[id];
    assert HasId(steps, need);
  }

  /** An accepted workflow never reaches a state in which steps are pending and none is ready, in any interleaving. */
  lemma AcceptedNeverDeadlocks(steps: seq<Step>, m: Machine)
    requires Accepted(steps) && Inv(StepMap(steps), m)
    ensures !Deadlocked(StepMap(steps), m)
  {
    var all := StepMap(steps);
    var g := GraphOf(steps);
    if Deadlocked(all, m) {
      var pending := PendingOf(m);
      forall id | id in pending ensures NeedsInside(g, pending, id) {
        assert id !in Ready(all, m);
        var need :| need in all[id].needs && need !in OutcomesOf(m);
        AcceptedNeedsAreSteps(steps, id, need);
        assert !OnAttempt(m, need) && !IsRejection(m.status[need]);
        assert need in pending;
      }
      StuckSetHasCycle(g, pending);
    }
  }

  /** With distinct ids, a run that decides every step proves that its needs are known and acyclic. */
  lemma CompletionImpliesAccepted(steps: seq<Step>, m: Machine)
    requires UniqueIds(steps) && Inv(StepMap(steps), m)
    requires !InFlight(m) && !Rejected(m) && PendingOf(m) == {}
    ensures Accepted(steps)
  {
    var all := StepMap(steps);
    var g := GraphOf(steps);
    forall id | id in all ensures m.status[id].Done? {
      assert !OnAttempt(m, id) && !IsRejection(m.status[id]);
      assert id !in PendingOf(m);
    }
    var rank := map id | id in all :: m.status[id].wave;
    forall id, need | id in all && need in all[id].needs ensures need in all && rank[need] < rank[id] {
      assert StatusSound(all[id], m);
      assert DecidedBefore(m, need, m.status[id].wave);
    }
    RankedGraphHasNoCycle(g, rank);
    forall i, need | 0 <= i < |steps| && need in steps[i].needs ensures HasId(steps, need) {
      UniqueStep(steps, i);
      assert need in g;
      var j :| 0 <= j < |steps| && steps[j].id == need;
    }
  }

  lemma UniqueStep(steps: seq<Step>, i: nat)
    requires UniqueIds(steps) && i < |steps|
    ensures steps[i].id in GraphOf(steps) && GraphOf(steps)[steps[i].id] == steps[i].needs
  {
    assert steps[i].id in GraphOf(steps);
  }

  /**
   * Validation is exactly what rules deadlock out: for distinct ids, a run without a rejection ends in the deadlock
   * error if and only if the graph was not accepted.
   */
  lemma DeadlockIffNotAccepted(steps: seq<Step>, results: Results)
    requires UniqueIds(steps)
    ensures var all := StepMap(steps);
            var last := Final(all, results, Initial(all));
            !Rejected(last) ==> (Deadlocked(all, last) <==> !Accepted(steps))
  {
    var all := StepMap(steps);
    var last := Final(all, results, Initial(all));
    InitialInv(all);
    FinalIsSound(all, results, Initial(all));
    if Accepted(steps) {
      AcceptedNeverDeadlocks(steps, last);
    } else if !Rejected(last) && PendingOf(last) == {} {
      CompletionImpliesAccepted(steps, last);
    }
  }

  /** Every state of every interleaved run is sound; when the workflow was accepted, none is a deadlock. */
  lemma {:induction false} RunsAreSound(steps: seq<Step>, results: Results, trace: seq<Machine>, i: nat)
    requires Trace(StepMap(steps), results, trace) && trace[0] == Initial(StepMap(steps)) && i < |trace|
    ensures Inv(StepMap(steps), trace[i])
    ensures Accepted(steps) ==> !Deadlocked(StepMap(steps), trace[i])
  {
    if i == 0 {
      InitialInv(StepMap(steps));
    } else {
      RunsAreSound(steps, results, trace, i - 1);
      StepKeepsInv(StepMap(steps), results, trace[i - 1], trace[i]);
    }
    if Accepted(steps) {
      AcceptedNeverDeadlocks(steps, trace[i]);
    }
  }

  // ---------------------------------------------------------------------------------------------------------------
  // When a step is decided, and what its outcome means.

  ghost predicate WalkFrom(g: Graph, p: seq<StepId>, id: StepId) {
    Walk(g, p) && |p| > 0 && p[0] == id
  }

  /** The longest chain of needs below `id` has `depth` edges. */
  ghost predicate DepthIs(g: Graph, id: StepId, depth: nat) {
    && (exists p :: WalkFrom(g, p, id) && |p| == depth + 1)
    && (forall p :: WalkFrom(g, p, id) ==> |p| <= depth + 1)
  }

  lemma {:induction false} WalkBound(steps: seq<Step>, m: Machine, p: seq<StepId>, id: StepId)
    requires Inv(StepMap(steps), m) && id in m.status && m.status[id].Done?
    requires WalkFrom(GraphOf(steps), p, id)
    ensures |p| <= m.status[id].wave + 1
    decreases |p|
  {
    if |p| > 1 {
      NeedOfDecided(steps, m, id, p[0 + 1]);
      assert Walk(GraphOf(steps), p[1..]);
      WalkBound(steps, m, p[1..], p[1]);
    }
  }

  lemma LatestNeed(steps: seq<Step>, m: Machine, id: StepId) returns (need: StepId)
    requires Inv(StepMap(steps), m) && id in m.status && m.status[id].Done? && m.status[id].wave > 0
    ensures Edge(GraphOf(steps), id, need)
    ensures need in m.status && m.status[need].Done? && m.status[need].wave == m.status[id].wave - 1
  {
    assert StatusSound(StepMap(steps)[id], m);
    need :| need in StepMap(steps)[id].needs && DecidedExactly(m, need, m.status[id].wave - 1);
  }

  lemma {:induction false} WalkExists(steps: seq<Step>, m: Machine, id: StepId) returns (p: seq<StepId>)
    requires Inv(StepMap(steps), m) && id in m.status && m.status[id].Done?
    ensures WalkFrom(GraphOf(steps), p, id) && |p| == m.status[id].wave + 1
    decreases m.status[id].wave
  {
    var wave := m.status[id].wave;
    if wave == 0 {
      p := [id];
    } else {
      var need := LatestNeed(steps, m, id);
      var rest := WalkExists(steps, m, need);
      p := [id] + rest;
      PrependWalk(GraphOf(steps), id, rest);
    }
  }

  lemma PrependWalk(g: Graph, id: StepId, rest: seq<StepId>)
    requires |rest| > 0 && Walk(g, rest) && Edge(g, id, rest[0])
    ensures WalkFrom(g, [id] + rest, id)
  {
    var p := [id] + rest;
    forall i | 0 <= i < |p| - 1 ensures Edge(g, p[i], p[i + 1]) {
      if i > 0 {
        assert p[i] == rest[i - 1] && p[i + 1] == rest[i - 1 + 1];
      }
    }
  }

  /** Along one edge: a decided step's need is decided, and a need that did not succeed means the step was skipped. */
  lemma NeedOfDecided(steps: seq<Step>, m: Machine, id: StepId, need: StepId)
    requires Inv(StepMap(steps), m) && id in m.status && m.status[id].Done?
    requires Edge(GraphOf(steps), id, need)
    ensures need in m.status && m.status[need].Done? && m.status[need].wave < m.status[id].wave
    ensures SucceededIn(m, need) || SkippedIn(m, id)
  {
    assert StatusSound(StepMap(steps)[id], m);
    assert DecidedBefore(m, need, m.status[id].wave);
  }

  /** A decided step left `pending` in exactly the wave numbered by its longest chain of needs. */
  lemma DecidedInDepthWave(steps: seq<Step>, m: Machine, id: StepId)
    requires Inv(StepMap(steps), m) && id in m.status && m.status[id].Done?
    ensures DepthIs(GraphOf(steps), id, m.status[id].wave)
  {
    var p := WalkExists(steps, m, id);
    assert WalkFrom(GraphOf(steps), p, id) && |p| == m.status[id].wave + 1;
    forall p | WalkFrom(GraphOf(steps), p, id) ensures |p| <= m.status[id].wave + 1 {
      WalkBound(steps, m, p, id);
    }
  }

  /** Success is closed under transitive needs, and whatever needs a step that did not succeed is skipped. */
  lemma {:induction false} SuccessIsClosed(steps: seq<Step>, m: Machine, p: seq<StepId>)
    requires Inv(StepMap(steps), m) && |p| > 0 && Walk(GraphOf(steps), p)
    requires p[0] in m.status && m.status[p[0]].Done?
    ensures p[|p| - 1] in m.status && m.status[p[|p| - 1]].Done?
    ensures SucceededIn(m, p[0]) ==> SucceededIn(m, p[|p| - 1])
    ensures |p| > 1 && !SucceededIn(m, p[|p| - 1]) ==> SkippedIn(m, p[0])
    decreases |p|
  {
    if |p| > 1 {
      NeedOfDecided(steps, m, p[0], p[0 + 1]);
      assert Walk(GraphOf(steps), p[1..]);
      SuccessIsClosed(steps, m, p[1..]);
    }
  }

  /** No gate ever sees a failed outcome, so a `failure()` step never runs. */
  lemma NoGateSeesFailure(all: Steps, m: Machine, id: StepId)
    requires Inv(all, m) && CanBegin(all, m) && id in Ready(all, m)
    ensures Failed !in OutcomesOf(m).Values
    ensures all[id].condition == "failure()" ==> SkippedIn(BeginWave(all, m), id)
  {
    forall other | other in OutcomesOf(m) ensures OutcomesOf(m)[other] != Failed {
      assert !IsRejection(m.status[other]);
    }
  }

  // ---------------------------------------------------------------------------------------------------------------
  // The loop itself.

  datatype Verdict = Completed | StepRejected | Deadlock | Cancelled

  function AllSkipped(ids: set<StepId>): Outcomes {
    map id | id in ids :: Skipped
  }

  /** Skips recorded earlier in the same wave change no gate. */
  lemma GateIgnoresOwnWave(step: Step, base: Outcomes, ids: set<StepId>)
    requires IsReady(step, base) && ids !! base.Keys
    ensures GateOf(step, base + AllSkipped(ids)) == GateOf(step, base)
  {
    var outcomes := base + AllSkipped(ids);
    if Failed in outcomes.Values {
      var id :| id in outcomes && outcomes[id] == Failed;
      assert id in base && base[id] == Failed;
    }
    if Failed in base.Values {
      var id :| id in base && base[id] == Failed;
      assert outcomes[id] == Failed;
    }
  }

  function GateSet(steps: Steps, outcomes: Outcomes, ids: set<StepId>, gate: Gate): set<StepId>
    requires ids <= steps.Keys
  {
    set id | id in ids && GateOf(steps[id], outcomes) == gate
  }

  /** The part of each ready step's promise that runs before its first await, in any order. */
  method PassGates(pending0: Steps, outcomes0: Outcomes, ready: set<StepId>)
    returns (pending: Steps, outcomes: Outcomes, running: set<StepId>, threw: set<StepId>)
    requires ready <= pending0.Keys && pending0.Keys !! outcomes0.Keys
    requires forall id :: id in ready ==> IsReady(pending0[id], outcomes0)
    ensures pending == pending0 - ready
    ensures outcomes == outcomes0 + AllSkipped(GateSet(pending0, outcomes0, ready, Skips))
    ensures running == GateSet(pending0, outcomes0, ready, Runs)
    ensures threw == GateSet(pending0, outcomes0, ready, Throws)
  {
    hide GateOf, GateSet, AllSkipped, IsReady;
    pending, outcomes, running, threw := pending0, outcomes0, {}, {};
    var todo := ready;
    ghost var started: set<StepId> := {};
    NoGatesYet(pending0, outcomes0);
    while todo != {}
      invariant todo <= ready && started == ready - todo
      invariant pending == pending0 - started
      invariant outcomes == outcomes0 + AllSkipped(GateSet(pending0, outcomes0, started, Skips))
      invariant running == GateSet(pending0, outcomes0, started, Runs)
      invariant threw == GateSet(pending0, outcomes0, started, Throws)
      decreases todo
    {
      var id :| id in todo;
      var step := pending[id];
      pending := pending - {id};
      assert pending == pending0 - (started + {id});
      OneMoreGate(pending0, outcomes0, started, id);
      match GateOf(step, outcomes) {
        case Skips => outcomes := outcomes[id := Skipped];
        case Runs => running := running + {id};
        case Throws => threw := threw + {id};
      }
      started, todo := started + {id}, todo - {id};
    }
    assert started == ready;
  }

  lemma NoGatesYet(steps: Steps, outcomes: Outcomes)
    ensures forall gate :: GateSet(steps, outcomes, {}, gate) == {}
    ensures outcomes + AllSkipped({}) == outcomes
  {
  }

  /** One more step passes its gate, among skips already recorded. */
  lemma OneMoreGate(steps: Steps, outcomes: Outcomes, ids: set<StepId>, id: StepId)
    requires ids <= steps.Keys && steps.Keys !! outcomes.Keys && id in steps && IsReady(steps[id], outcomes)
    ensures GateOf(steps[id], outcomes + AllSkipped(GateSet(steps, outcomes, ids, Skips)))
              == GateOf(steps[id], outcomes)
    ensures forall gate :: GateSet(steps, outcomes, ids + {id}, gate)
                        == if GateOf(steps[id], outcomes) == gate then GateSet(steps, outcomes, ids, gate) + {id}
                            else GateSet(steps, outcomes, ids, gate)
    ensures outcomes + AllSkipped(GateSet(steps, outcomes, ids, Skips) + {id})
         == (outcomes + AllSkipped(GateSet(steps, outcomes, ids, Skips)))[id := Skipped]
  {
    GateIgnoresOwnWave(steps[id], outcomes, GateSet(steps, outcomes, ids, Skips));
    GateSetGrows(steps, outcomes, ids, id);
    SkipOneMore(outcomes, GateSet(steps, outcomes, ids, Skips), id);
  }

  lemma SkipOneMore(outcomes: Outcomes, ids: set<StepId>, id: StepId)
    ensures outcomes + AllSkipped(ids + {id}) == (outcomes + AllSkipped(ids))[id := Skipped]
  {
  }

  lemma GateSetGrows(steps: Steps, outcomes: Outcomes, ids: set<StepId>, id: StepId)
    requires ids <= steps.Keys && id in steps
    ensures forall gate :: GateSet(steps, outcomes, ids + {id}, gate)
                        == if GateOf(steps[id], outcomes) == gate then GateSet(steps, outcomes, ids, gate) + {id}
                            else GateSet(steps, outcomes, ids, gate)
  {
  }

  lemma GatedStatus(all: Steps, m: Machine, id: StepId)
    requires Inv(all, m) && CanBegin(all, m) && id in all
    ensures var status := BeginWave(all, m).status[id];
            if id in Ready(all, m) then m.status[id].Pending?
                && status == StartStatus(GateOf(all[id], OutcomesOf(m)), m.wave)
            else status == m.status[id] && (status.Pending? || (status.Done? && status.outcome != Failed))
  {
    NewWaveStatus(all, m, id);
  }

  /** What the gates leave behind is the next wave. */
  lemma GatesBeginWave(all: Steps, m: Machine, pending: Steps)
    requires Inv(all, m) && CanBegin(all, m)
    requires pending.Keys == PendingOf(m) && forall id :: id in pending ==> pending[id] == all[id]
    ensures Ready(all, m) <= pending.Keys
    ensures pending.Keys - Ready(all, m) == PendingOf(BeginWave(all, m))
    ensures GateSet(pending, OutcomesOf(m), Ready(all, m), Runs) == Flying(BeginWave(all, m))
    ensures GateSet(pending, OutcomesOf(m), Ready(all, m), Throws) == ThrownIn(BeginWave(all, m))
  {
    hide GateOf, StatusSound;
    forall id | id in all ensures id in pending.Keys - Ready(all, m) <==> id in PendingOf(BeginWave(all, m)) {
      GatedStatus(all, m, id);
    }
    forall id | id in all
      ensures id in GateSet(pending, OutcomesOf(m), Ready(all, m), Runs) <==> id in Flying(BeginWave(all, m))
      ensures id in GateSet(pending, OutcomesOf(m), Ready(all, m), Throws) <==> id in ThrownIn(BeginWave(all, m))
    {
      GatedStatus(all, m, id);
    }
  }

  lemma SkipsBeginWave(all: Steps, m: Machine, pending: Steps)
    requires Inv(all, m) && CanBegin(all, m)
    requires pending.Keys == PendingOf(m) && forall id :: id in pending ==> pending[id] == all[id]
    requires Ready(all, m) <= pending.Keys
    ensures OutcomesOf(m) + AllSkipped(GateSet(pending, OutcomesOf(m), Ready(all, m), Skips))
              == OutcomesOf(BeginWave(all, m))
  {
    hide GateOf, StatusSound;
    hide BeginWave, Ready;
    var after := OutcomesOf(BeginWave(all, m));
    var expected := OutcomesOf(m) + AllSkipped(GateSet(pending, OutcomesOf(m), Ready(all, m), Skips));
    forall id | id in all ensures id in after <==> id in expected {
      GatedStatus(all, m, id);
    }
    assert after.Keys == expected.Keys;
    forall id | id in after ensures after[id] == expected[id] {
      GatedStatus(all, m, id);
    }
  }

  function Flying(m: Machine): set<StepId> {
    set id | id in m.status && m.status[id].Running?
  }

  function ThrownIn(m: Machine): set<StepId> {
    set id | id in m.status && m.status[id].Thrown?
  }

  /** The attempt loop of one step. */
  method RunStep(step: Step, results: Results, ghost wave: nat) returns (outcome: Outcome)
    ensures outcome == FirstRun(step, results, wave) && outcome != Skipped
    ensures outcome == Succeeded <==> step.continueOnError || exists a ::
              1 <= a <= step.retries + 1 && results(step.id, a)
  {
    var attempt := 1;
    while attempt <= step.retries + 1
      invariant 1 <= attempt <= step.retries + 2
      invariant forall a :: 1 <= a < attempt ==> !results(step.id, a)
      invariant attempt <= step.retries + 1 ==>
                  SettleStatus(step, results, Running(wave, attempt)) == SettleStatus(step, results, Running(wave, 1))
      invariant attempt == step.retries + 2 ==>
                  SettleStatus(step, results, Running(wave, 1)).outcome == if step.continueOnError then Succeeded
                      else Failed
    {
      if results(step.id, attempt) {
        return Succeeded;
      }
      attempt := attempt + 1;
    }
    outcome := if step.continueOnError then Succeeded else Failed;
  }

  function FirstRun(step: Step, results: Results, wave: nat): (outcome: Outcome)
    ensures outcome != Skipped
  {
    SettleStatus(step, results, Running(wave, 1)).outcome
  }

  function FirstRuns(all: Steps, results: Results, wave: nat, ids: set<StepId>): Outcomes
    requires ids <= all.Keys
  {
    map id | id in ids :: FirstRun(all[id], results, wave)
  }

  /** The awaited part of a wave, one step after the other: one of the interleavings, and so as good as any. */
  method FinishAttempts(all: Steps, results: Results, ghost wave: nat, outcomes0: Outcomes, running: set<StepId>)
    returns (outcomes: Outcomes)
    requires running <= all.Keys && running !! outcomes0.Keys
    ensures outcomes == outcomes0 + FirstRuns(all, results, wave, running)
  {
    outcomes := outcomes0;
    var todo := running;
    ghost var finished: set<StepId> := {};
    while todo != {}
      invariant todo <= running && finished == running - todo
      invariant outcomes == outcomes0 + FirstRuns(all, results, wave, finished)
      decreases todo
    {
      var id :| id in todo;
      var outcome := RunStep(all[id], results, wave);
      outcomes := outcomes[id := outcome];
      finished, todo := finished + {id}, todo - {id};
    }
    assert finished == running;
  }

  lemma SettledStatus(all: Steps, results: Results, m: Machine, id: StepId)
    requires Inv(all, m) && CanBegin(all, m) && id in all
    ensures var begun := BeginWave(all, m).status[id];
            var settled := Settle(all, results, BeginWave(all, m)).status[id];
            if begun.Running? then settled.Done? && settled.outcome == FirstRun(all[id], results, m.wave)
            else settled == begun && (begun.Done? ==> begun.outcome != Failed)
  {
    GatedStatus(all, m, id);
  }

  lemma SettlingKeepsPending(all: Steps, results: Results, m: Machine)
    requires Inv(all, m) && CanBegin(all, m)
    ensures PendingOf(Settle(all, results, BeginWave(all, m))) == PendingOf(BeginWave(all, m))
  {
    forall id | id in all
      ensures id in PendingOf(Settle(all, results, BeginWave(all, m))) <==> id in PendingOf(BeginWave(all, m))
    {
      SettledStatus(all, results, m, id);
    }
  }

  /** The attempts of a wave settle it. */
  lemma AttemptsSettleWave(all: Steps, results: Results, m: Machine)
    requires Inv(all, m) && CanBegin(all, m)
    ensures var begun := BeginWave(all, m);
            && Flying(begun) <= all.Keys && Flying(begun) !! OutcomesOf(begun).Keys
            && OutcomesOf(Settle(all, results, begun))
                == OutcomesOf(begun) + FirstRuns(all, results, m.wave, Flying(begun))
  {
    hide BeginWave, Settle, FirstRun, StatusSound, Ready;
    var begun := BeginWave(all, m);
    var o := OutcomesOf(Settle(all, results, begun));
    var expected := OutcomesOf(begun) + FirstRuns(all, results, m.wave, Flying(begun));
    forall id | id in all ensures id in o <==> id in expected {
      SettledStatus(all, results, m, id);
    }
    assert o.Keys == expected.Keys;
    forall id | id in o ensures o[id] == expected[id] {
      SettledStatus(all, results, m, id);
    }
  }

  /** A settled wave shows a rejection exactly when a condition threw or a started step failed. */
  lemma RejectionShows(all: Steps, results: Results, m: Machine)
    requires Inv(all, m) && CanBegin(all, m)
    ensures Flying(BeginWave(all, m)) <= all.Keys
    ensures Rejected(Settle(all, results, BeginWave(all, m)))
       <==> || ThrownIn(BeginWave(all, m)) != {}
            || Failed in FirstRuns(all, results, m.wave, Flying(BeginWave(all, m))).Values
  {
    hide BeginWave, Settle, FirstRun, StatusSound, Ready;
    var begun := BeginWave(all, m);
    var settled := Settle(all, results, begun);
    var runs := FirstRuns(all, results, m.wave, Flying(begun));
    forall id | id in all
      ensures IsRejection(settled.status[id]) <==> id in ThrownIn(begun) || (id in runs && runs[id] == Failed)
    {
      SettledStatus(all, results, m, id);
    }
    if id :| id in ThrownIn(begun) { assert IsRejection(settled.status[id]); }
    if id :| id in runs && runs[id] == Failed { assert IsRejection(settled.status[id]); }
  }

  /** One wave, from its gates to its last attempt. */
  method RunWave(all: Steps, results: Results, ghost m: Machine, pending0: Steps, outcomes0: Outcomes,
                 ready: set<StepId>)
    returns (pending: Steps, outcomes: Outcomes, rejected: bool)
    requires Inv(all, m) && CanBegin(all, m) && ready == Ready(all, m)
    requires Shows(all, m, pending0, outcomes0)
    ensures Shows(all, Settle(all, results, BeginWave(all, m)), pending, outcomes)
    ensures rejected == Rejected(Settle(all, results, BeginWave(all, m)))
  {
    GatesBeginWave(all, m, pending0);
    SkipsBeginWave(all, m, pending0);
    SettlingKeepsPending(all, results, m);
    AttemptsSettleWave(all, results, m);
    RejectionShows(all, results, m);
    var running, threw;
    pending, outcomes, running, threw := PassGates(pending0, outcomes0, ready);
    outcomes := FinishAttempts(all, results, m.wave, outcomes, running);
    rejected := threw != {} || exists id :: id in running && outcomes[id] == Failed;
    assert rejected <==> threw != {} || Failed in FirstRuns(all, results, m.wave, running).Values by {
      if id :| id in running && outcomes[id] == Failed {
        assert FirstRuns(all, results, m.wave, running)[id] == Failed;
      }
    }
  }

  lemma ReadyFromMaps(all: Steps, m: Machine, pending: Steps, outcomes: Outcomes)
    requires Inv(all, m) && Shows(all, m, pending, outcomes)
    ensures (set id | id in pending && IsReady(pending[id], outcomes)) == Ready(all, m)
  {
  }

  lemma InitialIsIdle(all: Steps)
    ensures PendingOf(Initial(all)) == all.Keys && OutcomesOf(Initial(all)) == map[]
    ensures !InFlight(Initial(all)) && !Rejected(Initial(all))
  {
  }

  /** `pending` and `outcomes` as a state of the machine shows them. */
  ghost predicate Shows(all: Steps, m: Machine, pending: Steps, outcomes: Outcomes) {
    && pending.Keys == PendingOf(m)
    && (forall id :: id in pending ==> id in all && pending[id] == all[id])
    && outcomes == OutcomesOf(m)
  }

  // ---------------------------------------------------------------------------------------------------------------
  // Why a step stands where it stands: its needs, the text of its condition and its attempts.

  predicate NeedsMet(step: Step, m: Machine) {
    forall need :: need in step.needs ==> SucceededIn(m, need)
  }

  predicate SomeAttemptSucceeds(step: Step, results: Results) {
    exists a :: 1 <= a <= step.retries + 1 && results(step.id, a)
  }

  /** A step that left `pending`, case by case. */
  ghost predicate Lawful(step: Step, results: Results, m: Machine)
    requires step.id in m.status
  {
    var c := step.condition;
    match m.status[step.id]
    case Pending => true
    case Running(_, attempt) =>
      && NeedsMet(step, m) && (c == "" || c == "success()" || c == "always()" || c == "true")
      && forall a :: 1 <= a < attempt ==> !results(step.id, a)
    case Thrown(_) =>
      && NeedsMet(step, m)
      && c != "" && c != "success()" && c != "always()" && c != "true" && c != "failure()" && c != "false"
    case Done(_, Skipped, _) => !NeedsMet(step, m) || c == "failure()" || c == "false"
    case Done(_, Succeeded, _) =>
      && NeedsMet(step, m) && (c == "" || c == "success()" || c == "always()" || c == "true")
      && (step.continueOnError || SomeAttemptSucceeds(step, results))
    case Done(_, Failed, _) =>
      && NeedsMet(step, m) && (c == "" || c == "success()" || c == "always()" || c == "true")
      && !step.continueOnError && !SomeAttemptSucceeds(step, results)
  }

  ghost predicate AllLawful(all: Steps, results: Results, m: Machine)
    requires WellKeyed(all) && m.status.Keys == all.Keys
  {
    forall id :: id in all ==> Lawful(all[id], results, m)
  }

  /** The needs of a step that left `pending` are decided for good. */
  lemma NeedsStayMet(step: Step, m: Machine, m': Machine)
    requires step.id in m.status && !m.status[step.id].Pending? && StatusSound(step, m) && KeepsDecided(m, m')
    ensures NeedsMet(step, m') == NeedsMet(step, m)
  {
    forall need | need in step.needs ensures SucceededIn(m', need) == SucceededIn(m, need) {
      assert DecidedBefore(m, need, m.wave);
    }
  }

  lemma GateSeesNeeds(all: Steps, m: Machine, id: StepId)
    requires Inv(all, m) && CanBegin(all, m) && id in Ready(all, m)
    ensures NeedsMet(all[id], BeginWave(all, m)) == NeedsSucceeded(all[id], OutcomesOf(m))
    ensures Failed !in OutcomesOf(m).Values
  {
    hide StatusSound;
    var m', outcomes := BeginWave(all, m), OutcomesOf(m);
    forall need | need in all[id].needs
      ensures SucceededIn(m', need) <==> need in outcomes && outcomes[need] == Succeeded
    {
      assert m'.status[need] == m.status[need];
    }
    forall other | other in outcomes ensures outcomes[other] != Failed {
      assert !IsRejection(m.status[other]);
    }
  }

  /** A gate sees no failure, so it only looks at the needs and the text of the condition. */
  lemma BeginningIsLawful(all: Steps, results: Results, m: Machine, id: StepId)
    requires Inv(all, m) && CanBegin(all, m) && id in Ready(all, m)
    ensures Lawful(all[id], results, BeginWave(all, m))
  {
    hide NeedsMet, NeedsSucceeded, SomeAttemptSucceeds, OutcomesOf, StatusSound, CanBegin;
    GateSeesNeeds(all, m, id);
    assert BeginWave(all, m).status[id] == StartStatus(GateOf(all[id], OutcomesOf(m)), m.wave);
    hide BeginWave, Ready;
  }

  lemma BeginWaveKeepsLawful(all: Steps, results: Results, m: Machine)
    requires Inv(all, m) && CanBegin(all, m) && AllLawful(all, results, m)
    ensures AllLawful(all, results, BeginWave(all, m))
  {
    hide GateOf, IsReady, Lawful;
    var m' := BeginWave(all, m);
    assert KeepsDecided(m, m');
    forall id | id in all ensures Lawful(all[id], results, m') {
      if id in Ready(all, m) {
        BeginningIsLawful(all, results, m, id);
      } else {
        assert m'.status[id] == m.status[id];
        UntouchedStaysLawful(all[id], results, m, m');
      }
    }
  }

  lemma UntouchedStaysLawful(step: Step, results: Results, m: Machine, m': Machine)
    requires step.id in m.status && step.id in m'.status && m'.status[step.id] == m.status[step.id]
    requires StatusSound(step, m) && KeepsDecided(m, m') && Lawful(step, results, m)
    ensures Lawful(step, results, m')
  {
    if !m.status[step.id].Pending? {
      NeedsStayMet(step, m, m');
    }
    hide StatusSound, NeedsMet;
  }

  lemma AttemptKeepsLawful(all: Steps, results: Results, m: Machine, id: StepId)
    requires Inv(all, m) && OnAttempt(m, id) && AllLawful(all, results, m)
    ensures AllLawful(all, results, Attempt(all, results, m, id))
  {
    hide Lawful;
    var m' := Attempt(all, results, m, id);
    AttemptDecidesMore(all, results, m, id);
    forall other | other in all ensures Lawful(all[other], results, m') {
      if other == id {
        FinishedIsLawful(all[id], results, m, m');
      } else {
        UntouchedStaysLawful(all[other], results, m, m');
      }
    }
  }

  lemma FinishedIsLawful(step: Step, results: Results, m: Machine, m': Machine)
    requires step.id in m.status && step.id in m'.status && m.status[step.id].Running? && StatusSound(step, m)
    requires KeepsDecided(m, m') && Lawful(step, results, m)
    requires m'.status[step.id] == FinishAttempt(step, results, m.status[step.id].wave, m.status[step.id].attempt)
    ensures Lawful(step, results, m')
  {
    NeedsStayMet(step, m, m');
    hide NeedsMet;
  }

  /** Settling a running step ends in success exactly when errors are tolerated or some attempt left succeeds. */
  lemma {:induction false} SettleIs(step: Step, results: Results, wave: nat, attempt: nat)
    requires 1 <= attempt <= step.retries + 1 && forall a :: 1 <= a < attempt ==> !results(step.id, a)
    ensures var settled := SettleStatus(step, results, Running(wave, attempt));
            settled.Done? && settled.outcome
              == if step.continueOnError || SomeAttemptSucceeds(step, results) then Succeeded else Failed
    decreases step.retries + 1 - attempt
  {
    if !results(step.id, attempt) && attempt < step.retries + 1 {
      SettleIs(step, results, wave, attempt + 1);
    }
  }

  lemma SettleKeepsLawful(all: Steps, results: Results, m: Machine)
    requires Inv(all, m) && AllLawful(all, results, m)
    ensures AllLawful(all, results, Settle(all, results, m))
  {
    var m' := Settle(all, results, m);
    assert KeepsDecided(m, m');
    hide Lawful;
    forall id | id in all ensures Lawful(all[id], results, m') {
      if m.status[id].Running? {
        SettledIsLawful(all[id], results, m, m');
      } else {
        UntouchedStaysLawful(all[id], results, m, m');
      }
    }
  }

  lemma SettledIsLawful(step: Step, results: Results, m: Machine, m': Machine)
    requires step.id in m.status && step.id in m'.status && m.status[step.id].Running? && StatusSound(step, m)
    requires KeepsDecided(m, m') && Lawful(step, results, m)
    requires m'.status[step.id] == SettleStatus(step, results, m.status[step.id])
    ensures Lawful(step, results, m')
  {
    NeedsStayMet(step, m, m');
    SettleIs(step, results, m.status[step.id].wave, m.status[step.id].attempt);
    hide NeedsMet, SettleStatus, SomeAttemptSucceeds;
  }

  /**
   * In every state of every interleaved run: a step that left `pending` was skipped exactly when a need did not succeed
   * or its condition is `failure()` or `false`; it runs, or ran, exactly when all needs succeeded and its condition is
   * empty, `success()`, `always()` or `true`; it threw exactly when they did and its condition is any other text.
   */
  lemma {:induction false} GatesFollowConditions(steps: seq<Step>, results: Results, trace: seq<Machine>, i: nat,
                                                 id: StepId)
    requires Trace(StepMap(steps), results, trace) && trace[0] == Initial(StepMap(steps)) && i < |trace|
    requires id in StepMap(steps) && !trace[i].status[id].Pending?
    ensures var step, status := StepMap(steps)[id], trace[i].status[id];
            var c, met := step.condition, forall need :: need in step.needs ==> SucceededIn(trace[i], need);
            && (SkippedIn(trace[i], id) <==> !met || c == "failure()" || c == "false")
            && (status.Running? || (status.Done? && status.outcome != Skipped)
                <==> met && (c == "" || c == "success()" || c == "always()" || c == "true"))
            && (status.Thrown? <==>
                  met && c != "" && c != "success()" && c != "always()" && c != "true" && c != "failure()"
                  && c != "false")
            && (status.Done? && status.outcome != Skipped ==>
                  (status.outcome == Succeeded <==>
                     step.continueOnError || exists a :: 1 <= a <= step.retries + 1 && results(id, a)))
  {
    hide Initial, StepMap, Lawful;
    TraceKeepsLawful(steps, results, trace, i);
    hide Trace;
    LawfulSays(StepMap(steps)[id], results, trace[i]);
  }

  lemma LawfulSays(step: Step, results: Results, m: Machine)
    requires step.id in m.status && !m.status[step.id].Pending? && Lawful(step, results, m)
    ensures var c, status := step.condition, m.status[step.id];
            && (SkippedIn(m, step.id) <==> !NeedsMet(step, m) || c == "failure()" || c == "false")
            && (status.Running? || (status.Done? && status.outcome != Skipped)
                <==> NeedsMet(step, m) && (c == "" || c == "success()" || c == "always()" || c == "true"))
            && (status.Thrown? <==>
                  NeedsMet(step, m)
                  && c != "" && c != "success()" && c != "always()" && c != "true" && c != "failure()" && c != "false")
            && (status.Done? && status.outcome != Skipped ==>
                  (status.outcome == Succeeded <==> step.continueOnError || SomeAttemptSucceeds(step, results)))
  {
    hide NeedsMet, SomeAttemptSucceeds;
  }

  lemma {:induction false} TraceKeepsLawful(steps: seq<Step>, results: Results, trace: seq<Machine>, i: nat)
    requires Trace(StepMap(steps), results, trace) && trace[0] == Initial(StepMap(steps)) && i < |trace|
    ensures Inv(StepMap(steps), trace[i]) && AllLawful(StepMap(steps), results, trace[i])
  {
    RunsAreSound(steps, results, trace, i);
    if i > 0 {
      TraceKeepsLawful(steps, results, trace, i - 1);
      NextKeepsLawful(StepMap(steps), results, trace[i - 1], trace[i]);
    }
  }

  lemma NextKeepsLawful(all: Steps, results: Results, m: Machine, m': Machine)
    requires Inv(all, m) && AllLawful(all, results, m) && Next(all, results, m, m')
    ensures m'.status.Keys == all.Keys && AllLawful(all, results, m')
  {
    hide AllLawful;
    if CanBegin(all, m) && m' == BeginWave(all, m) {
      BeginWaveKeepsLawful(all, results, m);
    } else {
      var id :| OnAttempt(m, id) && m' == Attempt(all, results, m, id);
      AttemptKeepsLawful(all, results, m, id);
    }
  }

  lemma InitialIsLawful(all: Steps, results: Results)
    requires WellKeyed(all)
    ensures AllLawful(all, results, Initial(all))
  {
  }

  /** The same of the outcomes a run leaves behind. */
  ghost predicate OutcomesFollow(all: Steps, results: Results, outcomes: Outcomes) {
    forall id :: id in outcomes ==>
      && id in all
      && var step := all[id];
         var skip := (exists need :: need in step.needs && (need !in outcomes || outcomes[need] != Succeeded))
                     || step.condition == "failure()" || step.condition == "false";
         && (outcomes[id] == Skipped <==> skip)
         && (outcomes[id] == Succeeded <==>
               !skip && (step.continueOnError || exists a :: 1 <= a <= step.retries + 1 && results(id, a)))
         && (!skip ==>
               step.condition == "" || step.condition == "success()" || step.condition == "always()"
               || step.condition == "true")
  }

  /** Something failed: a step that may not, or a condition that is none of the known ones. */
  ghost predicate SomethingFailed(all: Steps, results: Results, outcomes: Outcomes) {
    || (exists id :: id in outcomes && outcomes[id] == Failed)
    || exists id :: id in all && id !in outcomes
         && (forall need :: need in all[id].needs ==> need in outcomes && outcomes[need] == Succeeded)
         && all[id].condition != "" && all[id].condition != "success()" && all[id].condition != "always()"
         && all[id].condition != "true" && all[id].condition != "failure()" && all[id].condition != "false"
  }

  lemma LawfulOutcomes(all: Steps, results: Results, m: Machine)
    requires WellKeyed(all) && m.status.Keys == all.Keys && AllLawful(all, results, m)
    ensures OutcomesFollow(all, results, OutcomesOf(m))
    ensures Rejected(m) ==> SomethingFailed(all, results, OutcomesOf(m))
  {
    var outcomes := OutcomesOf(m);
    forall id ensures SucceededIn(m, id) <==> id in outcomes && outcomes[id] == Succeeded {
    }
    forall id | id in all
      ensures NeedsMet(all[id], m)
         <==> !exists need :: need in all[id].needs && (need !in outcomes || outcomes[need] != Succeeded)
    {
    }
    forall id | id in outcomes ensures Lawful(all[id], results, m) {
    }
    hide NeedsMet;
    if Rejected(m) {
      var id :| id in m.status && IsRejection(m.status[id]);
      assert Lawful(all[id], results, m);
    }
  }

  /** The wave loop over `pending` and `outcomes`; `aborted` is the cancellation signal read at the top of each wave. */
  method RunWaves(all: Steps, results: Results, aborted: nat -> bool)
    returns (verdict: Verdict, outcomes: Outcomes, ghost last: Machine)
    requires WellKeyed(all)
    ensures Inv(all, last) && outcomes == OutcomesOf(last)
    ensures verdict != Cancelled ==> last == Final(all, results, Initial(all))
    ensures verdict == StepRejected <==> Rejected(last)
    ensures verdict == Completed <==> !Rejected(last) && PendingOf(last) == {}
    ensures verdict == Deadlock ==> Deadlocked(all, last)
    ensures verdict == Cancelled ==> exists wave :: aborted(wave)
    ensures AllLawful(all, results, last)
    ensures verdict == Completed ==> !InFlight(last)
  {
    hide Lawful, BeginWave, Settle, GateOf, StatusSound, PendingOf, OutcomesOf, InFlight, Rejected, Ready, IsReady;
    var pending := all;
    outcomes := map[];
    last := Initial(all);
    InitialInv(all);
    InitialIsIdle(all);
    SettledIsUnchanged(all, results, last);
    InitialIsLawful(all, results);
    var wave := 0;
    while pending != map[]
      invariant Inv(all, last) && !InFlight(last) && !Rejected(last) && last.wave == wave
      invariant AllLawful(all, results, last)
      invariant Shows(all, last, pending, outcomes)
      invariant Drive(all, results, last) == Final(all, results, Initial(all))
      decreases |PendingOf(last)|
    {
      if aborted(wave) {
        return Cancelled, outcomes, last;
      }
      var ready := set id | id in pending && IsReady(pending[id], outcomes);
      ReadyFromMaps(all, last, pending, outcomes);
      if ready == {} {
        assert pending.Keys != {};
        return Deadlock, outcomes, last;
      }
      WaveShrinksPending(all, results, last);
      BeginWaveKeepsInv(all, last);
      SettleKeepsInv(all, results, BeginWave(all, last));
      BeginWaveKeepsLawful(all, results, last);
      SettleKeepsLawful(all, results, BeginWave(all, last));
      var rejected;
      pending, outcomes, rejected := RunWave(all, results, last, pending, outcomes, ready);
      last := Settle(all, results, BeginWave(all, last));
      if rejected {
        return StepRejected, outcomes, last;
      }
      wave := wave + 1;
    }
    ReadyFromMaps(all, last, pending, outcomes);
    verdict := Completed;
  }

  /** Whatever order the waves' attempts take, an accepted workflow never ends in the deadlock error. */
  method RunGraph(steps: seq<Step>, results: Results, aborted: nat -> bool)
    returns (verdict: Verdict, outcomes: Outcomes, ghost last: Machine)
    ensures Inv(StepMap(steps), last) && outcomes == OutcomesOf(last)
    ensures verdict != Cancelled ==> last == Final(StepMap(steps), results, Initial(StepMap(steps)))
    ensures verdict == StepRejected <==> Rejected(last)
    ensures verdict == Completed <==> !Rejected(last) && PendingOf(last) == {}
    ensures verdict == Deadlock ==> Deadlocked(StepMap(steps), last)
    ensures Accepted(steps) ==> verdict != Deadlock
    ensures verdict == Cancelled ==> exists wave :: aborted(wave)
    ensures OutcomesFollow(StepMap(steps), results, outcomes)
    ensures verdict == Completed ==> outcomes.Keys == StepMap(steps).Keys && Failed !in outcomes.Values
    ensures verdict == StepRejected ==> SomethingFailed(StepMap(steps), results, outcomes)
  {
    hide OutcomesFollow, SomethingFailed, StepMap, StatusSound, AllLawful, Final, OutcomesOf, PendingOf, Deadlocked;
    hide Accepted, Rejected, InFlight, Initial;
    verdict, outcomes, last := RunWaves(StepMap(steps), results, aborted);
    LawfulOutcomes(StepMap(steps), results, last);
    if verdict == Completed {
      CompletedDecidesAll(StepMap(steps), last);
    }
    if Accepted(steps) {
      AcceptedNeverDeadlocks(steps, last);
    }
  }

  lemma CompletedDecidesAll(all: Steps, m: Machine)
    requires m.status.Keys == all.Keys && !InFlight(m) && !Rejected(m) && PendingOf(m) == {}
    ensures OutcomesOf(m).Keys == all.Keys && Failed !in OutcomesOf(m).Values
  {
    forall id | id in all ensures m.status[id].Done? && m.status[id].outcome != Failed {
      assert !OnAttempt(m, id) && id !in PendingOf(m) && !IsRejection(m.status[id]);
    }
  }
}
