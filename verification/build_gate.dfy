/** The gate in front of an image build: what the run table lets through while one claim is executed. */
module BuildGate {
  import opened Wrappers
  import opened Workflow
  import opened Executor
  import BuilderRuns

  /** The event at which an attempt of a build step asks to push, if it gets that far. */
  type Asked = (StepId, nat) -> Option<nat>

  /** Each attempt that asks does so on its own, while the worker executes the claim made at `c`. */
  ghost predicate AskedDuring(events: seq<BuilderRuns.Event>, c: nat, end: nat, run: BuilderRuns.RunId,
                              worker: BuilderRuns.WorkerId, asked: Asked) {
    && BuilderRuns.Executing(events, c, end, run, worker)
    && (forall id, n :: asked(id, n).Some? ==>
          c < asked(id, n).value < end
              && events[asked(id, n).value] == BuilderRuns.Issue(BuilderRuns.MarkPushing(run, worker)))
    && (forall a, i, b, j :: asked(a, i).Some? && asked(a, i) == asked(b, j) ==> a == b && i == j)
  }

  /** The attempt's push goes through. */
  ghost predicate Passes(states: seq<BuilderRuns.System>, events: seq<BuilderRuns.Event>, run: BuilderRuns.RunId,
                         asked: Asked, id: StepId, n: nat) {
    asked(id, n).Some? && BuilderRuns.PushesAt(states, events, asked(id, n).value, run)
  }

  /** In one execution at most one attempt of one build step gets through the gate. */
  lemma OneAttemptPasses(states: seq<BuilderRuns.System>, events: seq<BuilderRuns.Event>, c: nat, end: nat,
                         run: BuilderRuns.RunId, worker: BuilderRuns.WorkerId, asked: Asked, a: StepId, i: nat,
                         b: StepId, j: nat)
    requires BuilderRuns.History(states, events) && AskedDuring(events, c, end, run, worker, asked)
    requires Passes(states, events, run, asked, a, i) && Passes(states, events, run, asked, b, j)
    ensures a == b && i == j
  {
    hide BuilderRuns.History, BuilderRuns.PushesAt;
    if a != b || i != j {
      var p, q := asked(a, i).value, asked(b, j).value;
      var first, second := if p < q then p else q, if p < q then q else p;
      assert BuilderRuns.Executing(events, c, second, run, worker);
      BuilderRuns.OnePushPerExecution(states, events, c, first, second, run, worker);
    }
  }

  /** An attempt of a build step succeeds only behind the gate. */
  ghost predicate Gated(states: seq<BuilderRuns.System>, events: seq<BuilderRuns.Event>, run: BuilderRuns.RunId,
                        asked: Asked, builds: set<StepId>, results: Results) {
    forall id, n :: id in builds && results(id, n) ==> Passes(states, events, run, asked, id, n)
  }

  // ---------------------------------------------------------------------------------------------------------------
  // What this means for a workflow.

  /** A step that succeeded without being tolerated had a successful attempt, its last. */
  ghost predicate Earned(all: Steps, results: Results, m: Machine)
    requires m.status.Keys == all.Keys
  {
    forall id :: id in m.status && SucceededIn(m, id) && !all[id].continueOnError ==>
        results(all[id].id, m.status[id].attempts)
  }

  lemma NextKeepsEarned(all: Steps, results: Results, m: Machine, m': Machine)
    requires m.status.Keys == all.Keys && Earned(all, results, m) && Next(all, results, m, m')
    ensures m'.status.Keys == all.Keys && Earned(all, results, m')
  {
    if CanBegin(all, m) && m' == BeginWave(all, m) {
      hide CanBegin, GateOf, Ready;
    } else {
      var id :| OnAttempt(m, id) && m' == Attempt(all, results, m, id);
    }
  }

  lemma {:induction false} TraceKeepsEarned(all: Steps, results: Results, trace: seq<Machine>, i: nat)
    requires Trace(all, results, trace) && trace[0] == Initial(all) && i < |trace|
    ensures Earned(all, results, trace[i])
  {
    hide Next;
    if i > 0 {
      TraceKeepsEarned(all, results, trace, i - 1);
      NextKeepsEarned(all, results, trace[i - 1], trace[i]);
    }
  }

  /**
   * However the attempts interleave, one execution of a claim earns at most one build step its success, at one
   * attempt: a second build step fails, and so does a retry of a build that had passed the gate and failed.
   */
  lemma OneBuildPerExecution(states: seq<BuilderRuns.System>, events: seq<BuilderRuns.Event>, c: nat, end: nat,
                             run: BuilderRuns.RunId, worker: BuilderRuns.WorkerId, asked: Asked, builds: set<StepId>,
                             steps: seq<Step>, results: Results, trace: seq<Machine>, k: nat, a: StepId)
    requires BuilderRuns.History(states, events) && AskedDuring(events, c, end, run, worker, asked)
    requires Gated(states, events, run, asked, builds, results)
    requires Trace(StepMap(steps), results, trace) && trace[0] == Initial(StepMap(steps)) && k < |trace|
    requires a in builds && SucceededIn(trace[k], a) && !StepMap(steps)[a].continueOnError
    ensures forall b ::
              (b in builds && b in StepMap(steps) && SucceededIn(trace[k], b) && !StepMap(steps)[b].continueOnError)
              ==> b == a
    ensures forall b, n :: Passes(states, events, run, asked, b, n) ==> b == a && n == trace[k].status[a].attempts
  {
    hide Trace, Passes, AskedDuring, BuilderRuns.History, Initial, StepMap;
    var all := StepMap(steps);
    TraceKeepsEarned(all, results, trace, k);
    var n := trace[k].status[a].attempts;
    KeysOf(steps, trace, results, k);
    assert Passes(states, events, run, asked, a, n);
    forall b, i | Passes(states, events, run, asked, b, i) ensures b == a && i == n {
      OneAttemptPasses(states, events, c, end, run, worker, asked, a, n, b, i);
    }
  }

  lemma KeysOf(steps: seq<Step>, trace: seq<Machine>, results: Results, k: nat)
    requires Trace(StepMap(steps), results, trace) && k < |trace|
    ensures trace[k].status.Keys == StepMap(steps).Keys && forall id :: id in StepMap(steps) ==>
              StepMap(steps)[id].id == id
  {
  }

  /**
   * A run that completes within one claim built at most one image: of two build steps that may not fail, one was
   * skipped.
   */
  lemma SecondBuildPreventsCompletion(states: seq<BuilderRuns.System>, events: seq<BuilderRuns.Event>, c: nat,
                                      end: nat, run: BuilderRuns.RunId, worker: BuilderRuns.WorkerId, asked: Asked,
                                      builds: set<StepId>, steps: seq<Step>, results: Results, trace: seq<Machine>,
                                      a: StepId, b: StepId)
    requires BuilderRuns.History(states, events) && AskedDuring(events, c, end, run, worker, asked)
    requires Gated(states, events, run, asked, builds, results)
    requires Trace(StepMap(steps), results, trace) && trace[0] == Initial(StepMap(steps))
    requires var last := trace[|trace| - 1]; !InFlight(last) && !Rejected(last) && PendingOf(last) == {}
    requires a in builds && b in builds && a != b && a in StepMap(steps) && b in StepMap(steps)
    requires !StepMap(steps)[a].continueOnError && !StepMap(steps)[b].continueOnError
    ensures SkippedIn(trace[|trace| - 1], a) || SkippedIn(trace[|trace| - 1], b)
  {
    var last := trace[|trace| - 1];
    hide Trace, Passes, Gated, AskedDuring, BuilderRuns.History, Initial, StepMap;
    KeysOf(steps, trace, results, |trace| - 1);
    EndsDecided(last, a);
    EndsDecided(last, b);
    if SucceededIn(last, a) && SucceededIn(last, b) {
      OneBuildPerExecution(states, events, c, end, run, worker, asked, builds, steps, results, trace, |trace| - 1, a);
    }
  }

  lemma EndsDecided(m: Machine, id: StepId)
    requires !InFlight(m) && !Rejected(m) && PendingOf(m) == {} && id in m.status
    ensures SkippedIn(m, id) || SucceededIn(m, id)
  {
    assert !OnAttempt(m, id) && id !in PendingOf(m) && !IsRejection(m.status[id]);
  }
}
