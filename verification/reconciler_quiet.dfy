/** What a pass leaves alone, and what goes wrong when a pass outlives its lease. */
module ReconcilerQuiet {
  import opened Wrappers
  import opened Lifecycle
  import opened Reconciler
  import opened ReconcilerReplicas
  import Scheduler

  // ---------------------------------------------------------------------------------------------------------------
  // A running deployment is left alone.

  /** The rows a pass read derive the status `Running`. */
  ghost predicate ReadRunning(pass: Pass) {
    && DeriveDeploymentStatus(pass.row.desired, pass.row.replicas, pass.rows) == Status.Running
    && forall w :: w in pass.rows ==> CountedUnhealthy(pass.rows[w])
  }

  /** Places from which a pass creates no workload and no command. */
  predicate Harmless(pc: Pc) { (pc.CheckingVolumes? || pc.SavingNode? || pc.Deciding? || pc.Resetting? || pc.Done?) }

  lemma NothingToRetireOrReplace(pass: Pass)
    requires ReadRunning(pass)
    ensures UnhealthyIds(pass.rows) == {} && Missing(pass.row, pass.rows) == 0
  {
    RunningIffAllServe(pass.row.desired, pass.row.replicas, pass.rows);
    hide DeriveDeploymentStatus;
    forall w | w in pass.rows && pass.rows[w].desired == Desired.Running
      ensures w in RunningIds(pass.rows) && Serving(pass.rows[w]) && !Broken(pass.rows[w]) {
      assert w in RunningIds(pass.rows);
    }
    assert ActiveIds(pass.rows, Persistent(pass.row)) == RunningIds(pass.rows);
  }

  lemma HarmlessStays(s: State, id: PassId, pass: Pass, move: Move)
    requires MoveAllowed(s, id, pass, move) && ReadRunning(pass) && Harmless(pass.pc)
    ensures !move.Place? && !move.Retire? && !move.Escalate?
    ensures var s' := AfterMove(s, id, pass, move);
            id in s'.passes ==> Harmless(s'.passes[id].pc) && ReadRunning(s'.passes[id])
  {
    hide DeriveDeploymentStatus, BoundNodes, VolumesUsable, UnhealthyIds, Missing, ActiveIds;
    NothingToRetireOrReplace(pass);
  }

  lemma ReadingIsHarmless(s: State, pass: Pass)
    requires FreeInv(s) && pass.pc == HasRow && DeriveDeploymentStatus(pass.row.desired, pass.row.replicas, s.rows)
              == Status.Running
    ensures Harmless(AfterReadWorkloads(s, pass).pc) && ReadRunning(AfterReadWorkloads(s, pass))
  {
    hide FixedPortsRefused, Managed;
  }

  lemma StepStaysHarmless(s: State, event: Event, id: PassId)
    requires Allowed(s, event) && id in s.passes && Harmless(s.passes[id].pc) && ReadRunning(s.passes[id])
    ensures id in After(s, event).passes ==>
              Harmless(After(s, event).passes[id].pc) && ReadRunning(After(s, event).passes[id])
    ensures event.ByPass? && event.id == id ==> !event.move.Place? && !event.move.Retire? && !event.move.Escalate?
  {
    hide ReadRunning, AfterMove, MoveAllowed, Bind;
    if event.ByPass? {
      if event.id == id {
        HarmlessStays(s, id, s.passes[id], event.move);
      } else {
        MoveKeepsOthers(s, event.id, s.passes[event.id], event.move, id);
      }
    }
  }

  /** From its reading of the rows on, a pass that read the status `Running` is harmless. */
  ghost predicate HarmlessSince(states: seq<State>, id: PassId, i: nat, j: nat) {
    i <= j < |states| && forall k :: i <= k <= j ==>
        id in states[k].passes && Harmless(states[k].passes[id].pc) && ReadRunning(states[k].passes[id])
  }

  /**
   * In every run: a pass that reads rows whose derived status is `Running` never creates a workload, retires one or
   * escalates as long as it lives, whatever happens around it.
   */
  lemma {:induction false} RunningIsLeftAlone(states: seq<State>, events: seq<Event>, id: PassId, i: nat, j: nat)
    requires Run(states, events) && i < j < |states|
    requires events[i] == ByPass(id, ReadWorkloads)
    requires DeriveDeploymentStatus(states[i].passes[id].row.desired, states[i].passes[id].row.replicas,
              states[i].rows) == Status.Running
    requires forall k :: i < k <= j ==> id in states[k].passes
    ensures HarmlessSince(states, id, i + 1, j)
    ensures j < |events| && events[j].ByPass? && events[j].id == id ==>
              !events[j].move.Place? && !events[j].move.Retire? && !events[j].move.Escalate?
  {
    hide ReadRunning, DeriveDeploymentStatus, FreeInv, Harmless, Initial;
    if j == i + 1 {
      hide AfterReadWorkloads;
      RunKeepsFreeInv(states, events, i);
      ReadingIsHarmless(states[i], states[i].passes[id]);
    } else {
      hide After, Allowed;
      RunningIsLeftAlone(states, events, id, i, j - 1);
      StepStaysHarmless(states[j - 1], events[j - 1], id);
    }
    if j < |events| {
      StepStaysHarmless(states[j], events[j], id);
    }
  }

  // ---------------------------------------------------------------------------------------------------------------
  // The lease assumption is needed.

  ghost predicate Reaches(s: State, t: State) {
    exists states, events :: Run(states, events) && states[0] == s && states[|events|] == t
  }

  lemma ReachesNext(s: State, t: State, event: Event)
    requires Reaches(s, t) && Allowed(t, event)
    ensures Reaches(s, After(t, event))
  {
    hide Allowed, After, Initial;
    var states, events :| Run(states, events) && states[0] == s && states[|events|] == t;
    var states', events' := states + [After(t, event)], events + [event];
    assert Run(states', events') && states'[0] == s && states'[|events'|] == After(t, event);
  }

  function SomeRequirements(): Scheduler.Requirements {
    Scheduler.Requirements(1, 1, 0, Scheduler.Container, None, None, [], None, [])
  }

  function SomeNode(): Scheduler.Node {
    var quantity := Scheduler.Quantity(8, 0);
    Scheduler.Node(Scheduler.NodeId(1), Scheduler.Ready, true, "x", None, map[], {Scheduler.Container},
        Scheduler.Resources(quantity, quantity, quantity), {})
  }

  /** One replica, no volumes, no ports. */
  function SomeRow(lease: Option<Lease>): Deployment {
    Deployment(Desired.Running, 1, [], [], SomeRequirements(), 0, None, Idle, lease)
  }

  function SomeState(clock: Time, lease: Option<Lease>, passes: map<PassId, Pass>, used: set<PassId>): State {
    State(clock, SomeRow(lease), map[], map[], passes, used, [], None)
  }

  function PlacingPass(stamp: Time, lease: Lease): Pass {
    Pass(stamp, Placing, SomeRow(Some(lease)), map[], SomeRequirements(), 1, 0, stamp, Scheduler.NodeId(1), {}, 0)
  }

  /** A fresh pass runs up to its placement. */
  lemma PassReachesPlacing(s0: State, clock: Time, lease: Option<Lease>, passes: map<PassId, Pass>, used: set<PassId>,
                           id: PassId)
    returns (t: State)
    requires Reaches(s0, SomeState(clock, lease, passes, used)) && id !in used && id !in passes
    requires lease.Some? ==> lease.value.until < clock
    ensures Reaches(s0, t)
    ensures var mine := Lease(id, clock + LEASE_MS);
            t == SomeState(clock, Some(mine), passes[id := PlacingPass(clock, mine)], used + {id})
  {
    hide Reaches;
    var s := SomeState(clock, lease, passes, used);
    var begin := Outside(Begin(id));
    ReachesNext(s0, s, begin);
    var s1 := After(s, begin);
    var mine := Lease(id, clock + LEASE_MS);
    var p := Pass(clock, Begun, SomeRow(lease), map[], SomeRequirements(), 0, 0, clock, Scheduler.NodeId(0), {}, 0);
    assert s1 == SomeState(clock, lease, passes[id := p], used + {id});
    var claimed := p.(pc := Claimed);
    var s2 := Advance(s0, s1, id, p, Claim, SomeState(clock, Some(mine), passes[id := claimed], used + {id}));
    t := FromClaimed(s0, clock, passes, used, id, mine, claimed);
  }

  lemma FromClaimed(s0: State, clock: Time, passes: map<PassId, Pass>, used: set<PassId>, id: PassId, mine: Lease,
                    claimed: Pass)
    returns (t: State)
    requires claimed.(row := SomeRow(None))
              == Pass(clock, Claimed, SomeRow(None), map[], SomeRequirements(), 0, 0, clock, Scheduler.NodeId(0), {}, 0)
    requires Reaches(s0, SomeState(clock, Some(mine), passes[id := claimed], used + {id}))
    ensures Reaches(s0, t) && t == SomeState(clock, Some(mine), passes[id := PlacingPass(clock, mine)], used + {id})
  {
    hide Reaches;
    var s2 := SomeState(clock, Some(mine), passes[id := claimed], used + {id});
    var read := claimed.(pc := HasRow, row := SomeRow(Some(mine)));
    var s3 := Advance(s0, s2, id, claimed, ReadRow, SomeState(clock, Some(mine), passes[id := read], used + {id}));
    var s4 := Advance(s0, s3, id, read, ReadWorkloads,
        SomeState(clock, Some(mine), passes[id := read.(pc := Deciding)], used + {id}));
    t := FinishPlacing(s0, clock, passes, used, id, mine, read.(pc := Deciding));
  }

  lemma Advance(s0: State, s: State, id: PassId, pass: Pass, move: Move, next: State) returns (t: State)
    requires Reaches(s0, s) && id in s.passes && s.passes[id] == pass && MoveAllowed(s, id, pass, move)
    requires AfterMove(s, id, pass, move) == next
    ensures t == next && Reaches(s0, t)
  {
    hide Reaches, AfterMove, MoveAllowed;
    ReachesNext(s0, s, ByPass(id, move));
    t := next;
  }

  lemma FinishPlacing(s0: State, clock: Time, passes: map<PassId, Pass>, used: set<PassId>, id: PassId, mine: Lease,
                      deciding: Pass)
    returns (t: State)
    requires deciding == Pass(clock, Deciding, SomeRow(Some(mine)), map[], SomeRequirements(), 0, 0, clock,
              Scheduler.NodeId(0), {}, 0)
    requires Reaches(s0, SomeState(clock, Some(mine), passes[id := deciding], used + {id}))
    ensures Reaches(s0, t) && t == SomeState(clock, Some(mine), passes[id := PlacingPass(clock, mine)], used + {id})
  {
    hide Reaches;
    var lease := Some(mine);
    var s4 := SomeState(clock, lease, passes[id := deciding], used + {id});
    var looping := deciding.(pc := LoopTop, missing := 1);
    assert ActiveIds(deciding.rows, Persistent(deciding.row)) == {} && UnhealthyIds(deciding.rows) == {};
    var s5 := Advance(s0, s4, id, deciding, Decide, SomeState(clock, lease, passes[id := looping], used + {id}));
    t := FromLoopTop(s0, clock, passes, used, id, mine, looping);
  }

  lemma FromLoopTop(s0: State, clock: Time, passes: map<PassId, Pass>, used: set<PassId>, id: PassId, mine: Lease,
                    looping: Pass)
    returns (t: State)
    requires looping == Pass(clock, LoopTop, SomeRow(Some(mine)), map[], SomeRequirements(), 1, 0, clock,
              Scheduler.NodeId(0), {}, 0)
    requires Reaches(s0, SomeState(clock, Some(mine), passes[id := looping], used + {id}))
    ensures Reaches(s0, t) && t == SomeState(clock, Some(mine), passes[id := PlacingPass(clock, mine)], used + {id})
  {
    hide Reaches;
    var lease := Some(mine);
    var s5 := SomeState(clock, lease, passes[id := looping], used + {id});
    var choosing := looping.(pc := ChoosingNode);
    var s6 := Advance(s0, s5, id, looping, CheckRecovery, SomeState(clock, lease, passes[id := choosing], used + {id}));
    t := LastMove(s0, clock, passes, used, id, mine, choosing);
  }

  lemma LastMove(s0: State, clock: Time, passes: map<PassId, Pass>, used: set<PassId>, id: PassId, mine: Lease,
                 choosing: Pass)
    returns (t: State)
    requires choosing == Pass(clock, ChoosingNode, SomeRow(Some(mine)), map[], SomeRequirements(), 1, 0, clock,
              Scheduler.NodeId(0), {}, 0)
    requires Reaches(s0, SomeState(clock, Some(mine), passes[id := choosing], used + {id}))
    ensures Reaches(s0, t) && t == SomeState(clock, Some(mine), passes[id := PlacingPass(clock, mine)], used + {id})
  {
    hide Reaches, Scheduler.Decides;
    var lease := Some(mine);
    var s6 := SomeState(clock, lease, passes[id := choosing], used + {id});
    OneNodeDecides();
    var schedule := Schedule({SomeNode()}, Some(Scheduler.NodeId(1)));
    t := Advance(s0, s6, id, choosing, schedule,
        SomeState(clock, lease, passes[id := PlacingPass(clock, mine)], used + {id}));
  }

  lemma OneNodeDecides()
    ensures Scheduler.Decides({SomeNode()}, SomeRequirements(), Some(Scheduler.NodeId(1)))
  {
    assert Scheduler.Eligible(SomeNode(), SomeRequirements());
    assert Scheduler.NothingBefore({SomeNode()}, SomeRequirements(), SomeNode());
  }

  /**
   * When a pass may outlive its lease the bound fails: with one replica, a pass that stalls just before its placement
   * for longer than its lease lets a second pass place, and then places too.
   */
  lemma OutlivedLeasePlacesTwice() returns (s0: State, t: State)
    ensures Reaches(s0, t) && s0.row.replicas == 1 && RunningIds(t.rows) == {WorkloadId(10), WorkloadId(20)}
  {
    s0 := SomeState(0, None, map[], {});
    var none: seq<Event> := [];
    assert Run([s0], none) && [s0][0] == s0 && [s0][|none|] == s0;
    assert Reaches(s0, s0);
    hide Reaches;
    var s1 := PassReachesPlacing(s0, 0, None, map[], {}, PassId(1));
    var first, tick := Lease(PassId(1), LEASE_MS), Outside(Tick(LEASE_MS + 1));
    ReachesNext(s0, s1, tick);
    var stalled := map[PassId(1) := PlacingPass(0, first)];
    assert After(s1, tick) == SomeState(LEASE_MS + 1, Some(first), stalled, {PassId(1)});
    var s2 := PassReachesPlacing(s0, LEASE_MS + 1, Some(first), stalled, {PassId(1)}, PassId(2));
    t := BothPlace(s0, s2, PlacingPass(0, first), PlacingPass(LEASE_MS + 1, Lease(PassId(2), LEASE_MS + 1 + LEASE_MS)));
  }

  lemma BothPlace(s0: State, s: State, p: Pass, q: Pass) returns (t: State)
    requires Reaches(s0, s) && s.passes == map[PassId(1) := p, PassId(2) := q] && s.rows == map[]
    requires p.pc == Placing && q.pc == Placing && p.rows == map[] && q.rows == map[] && p.row.attempts == 0
              && q.row.attempts == 0
    requires p.checkedAt <= s.clock && q.checkedAt <= s.clock
    ensures Reaches(s0, t) && RunningIds(t.rows) == {WorkloadId(10), WorkloadId(20)}
  {
    hide Reaches;
    var second := ByPass(PassId(2), Place(WorkloadId(20), s.clock));
    ReachesNext(s0, s, second);
    var s' := After(s, second);
    var first := ByPass(PassId(1), Place(WorkloadId(10), s'.clock));
    ReachesNext(s0, s', first);
    t := After(s', first);
    assert t.rows == map[WorkloadId(20) := NewWorkload(q.target), WorkloadId(10) := NewWorkload(p.target)];
  }
}
