/** The lease: passes that finish within it work one at a time, and nobody clears another pass's lease. */
module ReconcilerLease {
  import opened Wrappers
  import opened Lifecycle
  import opened Reconciler
  import Scheduler

  /** The assumption on timing: every pass that is still alive is within its lease. */
  ghost predicate Timely(s: State) {
    forall id :: id in s.passes ==> s.clock <= s.passes[id].stamp + LEASE_MS
  }

  /** A pass past its claim holds the stored lease. */
  ghost predicate HoldsLease(s: State, id: PassId, pass: Pass) {
    pass.stamp <= s.clock && (pass.pc != Begun ==> s.row.lease == Some(Lease(id, pass.stamp + LEASE_MS)))
  }

  ghost predicate LeaseInv(s: State) {
    forall id :: id in s.passes ==> HoldsLease(s, id, s.passes[id])
  }

  /** At most one pass is past its claim. */
  lemma OneAtWork(s: State, a: PassId, b: PassId)
    requires LeaseInv(s) && a in s.passes && b in s.passes
    requires s.passes[a].pc != Begun && s.passes[b].pc != Begun
    ensures a == b
  {
  }

  /** The stored lease changes only by a claim of a free lease and by the holder's release. */
  lemma MoveOnLease(s: State, id: PassId, pass: Pass, move: Move)
    requires MoveAllowed(s, id, pass, move)
    ensures AfterMove(s, id, pass, move).row.lease ==
      if move.Claim? && LeaseFree(s.row, pass.stamp) then Some(Lease(id, pass.stamp + LEASE_MS))
      else if move.Release? && s.row.lease.Some? && s.row.lease.value.holder == id then None
      else s.row.lease
    ensures pass.pc == Begun && !(move.Claim? && LeaseFree(s.row, pass.stamp)) ==>
              id !in AfterMove(s, id, pass, move).passes
    ensures move.Release? ==> id !in AfterMove(s, id, pass, move).passes
    ensures id in AfterMove(s, id, pass, move).passes ==> AfterMove(s, id, pass, move).passes[id].pc != Begun
  {
    hide BoundNodes, VolumesUsable, UnhealthyIds, ActiveIds, Missing, HasReplacement, BackoffMs, Scheduler.Decides;
    hide Bind, FixedPortsRefused, PlacedRequirements;
  }

  lemma StepKeepsLeaseInv(s: State, event: Event)
    requires LeaseInv(s) && Timely(s) && Allowed(s, event)
    ensures LeaseInv(After(s, event))
  {
    hide AfterMove, MoveAllowed;
    var s' := After(s, event);
    if event.ByPass? {
      var id, pass, move := event.id, s.passes[event.id], event.move;
      MoveOnLease(s, id, pass, move);
      MoveKeepsConfig(s, id, pass, move);
      forall other | other in s'.passes ensures HoldsLease(s', other, s'.passes[other]) {
        if other == id {
          MoveKeepsSnapshot(s, id, pass, move);
          assert HoldsLease(s, id, pass);
        } else {
          MoveKeepsOthers(s, id, pass, move, other);
          assert HoldsLease(s, other, s.passes[other]);
        }
      }
    } else {
      forall other | other in s'.passes ensures HoldsLease(s', other, s'.passes[other]) {
        assert other in s.passes ==> HoldsLease(s, other, s.passes[other]);
      }
    }
  }

  /** Even a stale pass's release leaves any other pass's lease in place. */
  lemma ReleaseSparesSuccessor(s: State, id: PassId)
    requires Allowed(s, ByPass(id, Release)) && s.row.lease.Some? && s.row.lease.value.holder != id
    ensures After(s, ByPass(id, Release)).row == s.row
  {
  }

  /** A run in which no pass outlives its lease. */
  ghost predicate TimelyRun(states: seq<State>, events: seq<Event>) {
    Run(states, events) && forall i :: 0 <= i < |states| ==> Timely(states[i])
  }
}
