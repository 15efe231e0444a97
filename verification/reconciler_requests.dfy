/** What passes ask the scheduler for over whole runs: they save and read back requirements and change no demand. */
module ReconcilerRequests {
  import opened Wrappers
  import opened Lifecycle
  import opened Reconciler
  import Ports
  import Scheduler

  /** The same but for the required node and the host ports. */
  predicate SameDemand(a: Scheduler.Requirements, b: Scheduler.Requirements) {
    && a.cpuMilli == b.cpuMilli && a.memoryMib == b.memoryMib && a.storageMib == b.storageMib
    && a.runtime == b.runtime && a.architecture == b.architecture && a.region == b.region
    && a.requiredLabels == b.requiredLabels
  }

  /** The pass has read the workloads of a deployment wanted running. */
  predicate Prepared(pc: Pc) {
    && !pc.Begun? && !pc.Claimed? && !pc.HasRow? && !pc.Retiring? && !pc.Done?
  }

  /** Reading strips the stored host ports; the configured fixed ones are put in once the workloads are read. */
  predicate AsksFor(pass: Pass, ports: seq<Ports.PortSpec>, demand: Scheduler.Requirements) {
    && pass.row.ports == ports && SameDemand(pass.requirements, demand) && SameDemand(pass.row.requirements, demand)
    && (pass.pc == HasRow ==> pass.requirements.requestedHostPorts == [])
    && (Prepared(pass.pc) ==> pass.requirements.requestedHostPorts == Ports.FixedHostPorts(ports))
  }

  ghost predicate Inv(s: State, ports: seq<Ports.PortSpec>, demand: Scheduler.Requirements) {
    && s.row.ports == ports && SameDemand(s.row.requirements, demand)
    && forall id :: id in s.passes ==> AsksFor(s.passes[id], ports, demand)
  }

  /** A saved row is the stored one with the requirements of the pass, and saving changes nothing else. */
  lemma SaveWrites(s: State, id: PassId, pass: Pass)
    requires MoveAllowed(s, id, pass, Save)
    ensures var s' := AfterMove(s, id, pass, Save);
            && s'.row.requirements == pass.requirements && s' == s.(row := s'.row, passes := s'.passes)
            && s'.row == s.row.(requirements := s'.row.requirements)
            && s'.passes[id].pc == (if pass.pc == SavingNode then Deciding
                                    else if pass.pc == SavingRetry then LoopTop else Placing)
  {
  }

  lemma MoveKeepsDemand(s: State, id: PassId, pass: Pass, move: Move, demand: Scheduler.Requirements)
    requires MoveAllowed(s, id, pass, move) && SameDemand(pass.requirements, demand)
    requires SameDemand(s.row.requirements, demand)
    ensures SameDemand(AfterMove(s, id, pass, move).row.requirements, demand)
  {
    hide AfterReadRow, AfterReadWorkloads, AfterCheckVolumes, AfterDecide, AfterCheckRecovery, AfterSchedule;
    hide AfterReadClaims, HasReplacement, RecoveryAttempt, BackoffMs, LeaseFree, Bind, Scheduler.Decides;
  }

  lemma MoveKeepsAsking(s: State, id: PassId, pass: Pass, move: Move, ports: seq<Ports.PortSpec>,
                        demand: Scheduler.Requirements)
    requires MoveAllowed(s, id, pass, move) && AsksFor(pass, ports, demand)
    requires s.row.ports == ports && SameDemand(s.row.requirements, demand)
    requires id in AfterMove(s, id, pass, move).passes
    ensures AsksFor(AfterMove(s, id, pass, move).passes[id], ports, demand)
  {
    if !move.ReadRow? && !move.ReadWorkloads? {
      LaterMoveKeepsAsking(s, id, pass, move);
    } else {
      hide Ports.FixedHostPorts, Managed, FixedPortsRefused, RecoveryAttempt, Scheduler.Decides;
      hide AfterPlace, AfterDecide, AfterCheckVolumes, AfterReadClaims, AfterCheckRecovery, AfterSchedule, AfterClaim;
    }
  }

  /** Once the workloads are read, only the required node changes. */
  lemma LaterMoveKeepsAsking(s: State, id: PassId, pass: Pass, move: Move)
    requires MoveAllowed(s, id, pass, move) && !move.ReadRow? && !move.ReadWorkloads?
    requires id in AfterMove(s, id, pass, move).passes
    ensures var pass' := AfterMove(s, id, pass, move).passes[id];
            && pass'.row == pass.row && pass'.pc != HasRow && (Prepared(pass'.pc) ==> Prepared(pass.pc))
            && pass'.requirements == pass.requirements.(requiredNode := pass'.requirements.requiredNode)
  {
    hide BoundNodes, VolumesUsable, UnhealthyIds, ActiveIds, Missing, HasReplacement, BackoffMs, Scheduler.Decides;
    hide Bind, RecoveryAttempt, Serving, LeaseFree, RowAfterPlace, AfterReadRow, AfterReadWorkloads, Managed;
  }

  lemma AskingKeepsDemand(pass: Pass, ports: seq<Ports.PortSpec>, demand: Scheduler.Requirements)
    requires AsksFor(pass, ports, demand)
    ensures SameDemand(pass.requirements, demand)
  {
  }

  lemma EventKeepsInv(s: State, event: Event, ports: seq<Ports.PortSpec>, demand: Scheduler.Requirements)
    requires Inv(s, ports, demand) && Allowed(s, event)
    ensures Inv(After(s, event), ports, demand)
  {
    match event
    case ByPass(id, move) =>
      hide AsksFor, AfterMove, MoveAllowed, SameDemand;
      MoveKeepsConfig(s, id, s.passes[id], move);
      assert SameDemand(s.passes[id].requirements, demand) by { AskingKeepsDemand(s.passes[id], ports, demand); }
      MoveKeepsDemand(s, id, s.passes[id], move, demand);
      forall other | other in After(s, event).passes ensures AsksFor(After(s, event).passes[other], ports, demand) {
        if other == id {
          MoveKeepsAsking(s, id, s.passes[id], move, ports, demand);
        } else {
          MoveKeepsOthers(s, id, s.passes[id], move, other);
        }
      }
    case Outside(change) =>
      hide Bind, LostWithNode, Reported, Persistent, Managed, Ports.FixedHostPorts, SameDemand;
  }

  lemma {:induction false} RunKeepsInv(states: seq<State>, events: seq<Event>, i: nat)
    requires Run(states, events) && i < |states|
    ensures Inv(states[i], states[0].row.ports, states[0].row.requirements)
  {
    hide After, Allowed, AsksFor;
    if i > 0 {
      RunKeepsInv(states, events, i - 1);
      EventKeepsInv(states[i - 1], events[i - 1], states[0].row.ports, states[0].row.requirements);
    }
  }

  /**
   * In every run, whatever other passes saved in between, a pass that schedules or places asks for what the deployment
   * asked for at first, apart from the node, and for exactly its fixed host ports.
   */
  lemma RequestsStay(states: seq<State>, events: seq<Event>, i: nat, id: PassId)
    requires Run(states, events) && i < |states| && id in states[i].passes
    requires var pc := states[i].passes[id].pc;
             pc == ChoosingNode || pc == ClaimingVolumes || pc == ReadingClaims || pc == Placing
    ensures var asked, first := states[i].passes[id].requirements, states[0].row.requirements;
            && asked == first.(requiredNode := asked.requiredNode, requestedHostPorts := asked.requestedHostPorts)
            && forall h :: h in asked.requestedHostPorts <==> exists p ::
                 p in states[0].row.ports && p.isPublic && p.fixed == Some(h.port) && p.protocol == h.protocol
  {
    hide Run;
    RunKeepsInv(states, events, i);
  }
}
