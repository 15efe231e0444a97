/** The stateless scheduler: hard constraints first, then the balanced-load score. */
module Scheduler {
  import opened Wrappers
  import opened Ports

  /** A node id: `rank` is its place in the order that breaks ties, any total order on distinct ids. */
  datatype NodeId = NodeId(rank: int)

  datatype NodeStatus = Provisioning | Ready | Draining | Offline | Unhealthy | Decommissioned

  datatype Runtime = Container | MicroVm

  datatype Quantity = Quantity(allocatable: int, reserved: int)

  datatype Resources = Resources(cpuMilli: Quantity, memoryMib: Quantity, storageMib: Quantity)

  datatype Node = Node(
    id: NodeId, status: NodeStatus, schedulingEnabled: bool, architecture: string, region: Option<string>,
    labels: map<string, string>, runtimes: set<Runtime>, resources: Resources, reservedHostPorts: set<HostPort>)

  datatype Label = Label(key: string, value: string)

  datatype Requirements = Requirements(
    cpuMilli: int, memoryMib: int, storageMib: int, runtime: Runtime, architecture: Option<string>,
        region: Option<string>,
    requiredLabels: seq<Label>, requiredNode: Option<NodeId>, requestedHostPorts: seq<HostPort>)

  datatype Reason =
    | NodeStatusReason(status: NodeStatus) | SchedulingDisabled | RuntimeUnavailable
    | ArchitectureMismatch | RegionMismatch | NodeAffinityMismatch
    | HostPortUnavailable(hostPort: HostPort) | LabelMismatch(key: string)
    | InsufficientCpu | InsufficientMemory | InsufficientStorage

  predicate HasLabel(node: Node, wanted: Label) {
    wanted.key in node.labels && node.labels[wanted.key] == wanted.value
  }

  predicate Fits(quantity: Quantity, wanted: int) { quantity.reserved + wanted <= quantity.allocatable }

  /** What a node must offer to carry the workload. */
  ghost predicate Eligible(node: Node, req: Requirements) {
    && node.status == Ready && node.schedulingEnabled
    && req.runtime in node.runtimes
    && (req.architecture.Some? ==> node.architecture == req.architecture.value)
    && (req.region.Some? ==> node.region == req.region)
    && (req.requiredNode.Some? ==> node.id == req.requiredNode.value)
    && (forall h :: h in req.requestedHostPorts ==> h !in node.reservedHostPorts)
    && (forall l :: l in req.requiredLabels ==> HasLabel(node, l))
    && Fits(node.resources.cpuMilli, req.cpuMilli)
    && Fits(node.resources.memoryMib, req.memoryMib)
    && Fits(node.resources.storageMib, req.storageMib)
  }

  /** The constraint a reason names is violated. */
  ghost predicate Violated(reason: Reason, node: Node, req: Requirements) {
    match reason
    case NodeStatusReason(status) => status == node.status && status != Ready
    case SchedulingDisabled => !node.schedulingEnabled
    case RuntimeUnavailable => req.runtime !in node.runtimes
    case ArchitectureMismatch => req.architecture.Some? && node.architecture != req.architecture.value
    case RegionMismatch => req.region.Some? && node.region != req.region
    case NodeAffinityMismatch => req.requiredNode.Some? && node.id != req.requiredNode.value
    case HostPortUnavailable(h) => h in req.requestedHostPorts && h in node.reservedHostPorts
    case LabelMismatch(key) => exists l :: l in req.requiredLabels && l.key == key && !HasLabel(node, l)
    case InsufficientCpu => !Fits(node.resources.cpuMilli, req.cpuMilli)
    case InsufficientMemory => !Fits(node.resources.memoryMib, req.memoryMib)
    case InsufficientStorage => !Fits(node.resources.storageMib, req.storageMib)
  }

  lemma EligibleIffNothingViolated(node: Node, req: Requirements)
    ensures Eligible(node, req) <==> forall reason :: !Violated(reason, node, req)
  {
    if forall reason :: !Violated(reason, node, req) {
      assert !Violated(NodeStatusReason(node.status), node, req);
      assert !Violated(SchedulingDisabled, node, req) && !Violated(RuntimeUnavailable, node, req);
      assert !Violated(ArchitectureMismatch, node, req) && !Violated(RegionMismatch, node, req)
          && !Violated(NodeAffinityMismatch, node, req);
      assert !Violated(InsufficientCpu, node, req) && !Violated(InsufficientMemory, node, req)
          && !Violated(InsufficientStorage, node, req);
      forall h | h in req.requestedHostPorts ensures h !in node.reservedHostPorts {
        assert !Violated(HostPortUnavailable(h), node, req);
      }
      forall l | l in req.requiredLabels ensures HasLabel(node, l) {
        assert !Violated(LabelMismatch(l.key), node, req);
      }
    }
  }

  /** Every violated constraint is reported, and nothing else is. */
  method Reasons(node: Node, req: Requirements) returns (reasons: seq<Reason>)
    ensures forall reason :: reason in reasons <==> Violated(reason, node, req)
    ensures reasons == [] <==> Eligible(node, req)
    ensures NodeStatusReason(node.status) in reasons <==> node.status != Ready
    ensures SchedulingDisabled in reasons <==> !node.schedulingEnabled
    ensures RuntimeUnavailable in reasons <==> req.runtime !in node.runtimes
    ensures ArchitectureMismatch in reasons <==> req.architecture.Some? && req.architecture.value != node.architecture
    ensures RegionMismatch in reasons <==> req.region.Some? && node.region != req.region
    ensures NodeAffinityMismatch in reasons <==> req.requiredNode.Some? && req.requiredNode.value != node.id
    ensures forall h :: HostPortUnavailable(h) in reasons
              <==> h in req.requestedHostPorts && h in node.reservedHostPorts
    ensures forall key :: LabelMismatch(key) in reasons
              <==> exists l :: l in req.requiredLabels && l.key == key
                     && (key !in node.labels || node.labels[key] != l.value)
    ensures var cpu := node.resources.cpuMilli;
            InsufficientCpu in reasons <==> cpu.allocatable - cpu.reserved < req.cpuMilli
    ensures var memory := node.resources.memoryMib;
            InsufficientMemory in reasons <==> memory.allocatable - memory.reserved < req.memoryMib
    ensures var storage := node.resources.storageMib;
            InsufficientStorage in reasons <==> storage.allocatable - storage.reserved < req.storageMib
  {
    NodeViolations(node, req);
    RequestViolations(node, req);
    hide Eligible, Violated;
    var own := NodeReasons(node, req);
    var ports := PortReasons(node, req);
    var labels := LabelReasons(node, req);
    var room := RoomReasons(node, req);
    reasons := own + ports + labels + room;
    forall reason ensures reason in reasons <==> Violated(reason, node, req) {
      assert reason.HostPortUnavailable? || reason.LabelMismatch? || AboutRoom(reason) || AboutNode(reason);
    }
    EligibleIffNothingViolated(node, req);
    assert reasons != [] ==> reasons[0] in reasons;
  }

  lemma NodeViolations(node: Node, req: Requirements)
    ensures Violated(NodeStatusReason(node.status), node, req) <==> node.status != Ready
    ensures Violated(SchedulingDisabled, node, req) <==> !node.schedulingEnabled
    ensures Violated(RuntimeUnavailable, node, req) <==> req.runtime !in node.runtimes
    ensures var cpu := node.resources.cpuMilli;
            Violated(InsufficientCpu, node, req) <==> cpu.allocatable - cpu.reserved < req.cpuMilli
    ensures var memory := node.resources.memoryMib;
            Violated(InsufficientMemory, node, req) <==> memory.allocatable - memory.reserved < req.memoryMib
    ensures var storage := node.resources.storageMib;
            Violated(InsufficientStorage, node, req) <==> storage.allocatable - storage.reserved < req.storageMib
  {
  }

  lemma RequestViolations(node: Node, req: Requirements)
    ensures var asked := req.architecture;
            Violated(ArchitectureMismatch, node, req) <==> asked.Some? && asked.value != node.architecture
    ensures Violated(RegionMismatch, node, req) <==> req.region.Some? && node.region != req.region
    ensures Violated(NodeAffinityMismatch, node, req) <==> req.requiredNode.Some? && req.requiredNode.value != node.id
    ensures forall h :: Violated(HostPortUnavailable(h), node, req)
              <==> h in req.requestedHostPorts && h in node.reservedHostPorts
    ensures forall key :: Violated(LabelMismatch(key), node, req)
              <==> exists l :: l in req.requiredLabels && l.key == key
                     && (key !in node.labels || node.labels[key] != l.value)
  {
  }

  predicate AboutRoom(reason: Reason) { reason.InsufficientCpu? || reason.InsufficientMemory?
                      || reason.InsufficientStorage? }

  predicate AboutNode(reason: Reason) { !reason.HostPortUnavailable? && !reason.LabelMismatch? && !AboutRoom(reason) }

  method NodeReasons(node: Node, req: Requirements) returns (reasons: seq<Reason>)
    ensures forall reason :: reason in reasons <==> AboutNode(reason) && Violated(reason, node, req)
  {
    hide Note, Violated;
    var status := StatusReasons(node, req);
    var place := PlaceReasons(node, req);
    reasons := status + place;
  }

  predicate AboutPlace(reason: Reason) { reason.ArchitectureMismatch? || reason.RegionMismatch?
                       || reason.NodeAffinityMismatch? }

  method StatusReasons(node: Node, req: Requirements) returns (reasons: seq<Reason>)
    ensures forall reason :: reason in reasons
              <==> AboutNode(reason) && !AboutPlace(reason) && Violated(reason, node, req)
  {
    hide Note;
    reasons := Note([], node.status != Ready, NodeStatusReason(node.status));
    reasons := Note(reasons, !node.schedulingEnabled, SchedulingDisabled);
    reasons := Note(reasons, req.runtime !in node.runtimes, RuntimeUnavailable);
  }

  method PlaceReasons(node: Node, req: Requirements) returns (reasons: seq<Reason>)
    ensures forall reason :: reason in reasons <==> AboutPlace(reason) && Violated(reason, node, req)
  {
    hide Note;
    reasons := Note([], req.architecture.Some? && node.architecture != req.architecture.value, ArchitectureMismatch);
    reasons := Note(reasons, req.region.Some? && node.region != req.region, RegionMismatch);
    reasons := Note(reasons, req.requiredNode.Some? && node.id != req.requiredNode.value, NodeAffinityMismatch);
  }

  method RoomReasons(node: Node, req: Requirements) returns (reasons: seq<Reason>)
    ensures forall reason :: reason in reasons <==> AboutRoom(reason) && Violated(reason, node, req)
  {
    hide Note;
    var cpu, memory, storage := node.resources.cpuMilli, node.resources.memoryMib, node.resources.storageMib;
    reasons := Note([], cpu.allocatable - cpu.reserved < req.cpuMilli, InsufficientCpu);
    reasons := Note(reasons, memory.allocatable - memory.reserved < req.memoryMib, InsufficientMemory);
    reasons := Note(reasons, storage.allocatable - storage.reserved < req.storageMib, InsufficientStorage);
  }

  function Note(reasons: seq<Reason>, violated: bool, reason: Reason): (r: seq<Reason>)
    ensures forall other :: other in r <==> other in reasons || (violated && other == reason)
  {
    if violated then reasons + [reason] else reasons
  }

  method PortReasons(node: Node, req: Requirements) returns (reasons: seq<Reason>)
    ensures forall reason :: reason in reasons <==> reason.HostPortUnavailable? && Violated(reason, node, req)
  {
    reasons := [];
    for i := 0 to |req.requestedHostPorts|
      invariant forall reason :: reason in reasons <==>
        reason.HostPortUnavailable? && reason.hostPort in req.requestedHostPorts[..i]
            && reason.hostPort in node.reservedHostPorts
    {
      var h := req.requestedHostPorts[i];
      if h in node.reservedHostPorts { reasons := reasons + [HostPortUnavailable(h)]; }
    }
  }

  method LabelReasons(node: Node, req: Requirements) returns (reasons: seq<Reason>)
    ensures forall reason :: reason in reasons <==> reason.LabelMismatch? && Violated(reason, node, req)
  {
    reasons := [];
    for i := 0 to |req.requiredLabels|
      invariant forall reason :: reason in reasons <==>
        reason.LabelMismatch? && exists l :: l in req.requiredLabels[..i] && l.key == reason.key && !HasLabel(node, l)
    {
      var l := req.requiredLabels[i];
      if !HasLabel(node, l) { reasons := reasons + [LabelMismatch(l.key)]; }
    }
  }

  function Share(quantity: Quantity): real {
    if quantity.allocatable == 0 then 0.0
    else (quantity.allocatable - quantity.reserved) as real / quantity.allocatable as real
  }

  /** The mean free share of the three resources. */
  function ScoreNode(node: Node): real {
    (Share(node.resources.cpuMilli) + Share(node.resources.memoryMib) + Share(node.resources.storageMib)) / 3.0
  }

  /** The order candidates are tried in: the higher score first, then the smaller id. */
  predicate Before(left: Node, right: Node) {
    ScoreNode(left) > ScoreNode(right) || (ScoreNode(left) == ScoreNode(right) && left.id.rank < right.id.rank)
  }

  lemma BeforeIsTransitive(nodes: seq<Node>, selected: Node, next: Node)
    requires forall m :: m in nodes ==> !Before(m, selected)
    ensures Before(next, selected) ==> forall m :: m in nodes + [next] ==> !Before(m, next)
  {
    hide ScoreNode;
  }

  /** An eligible node that no eligible node comes before, or none when none is eligible. */
  ghost predicate Decides(nodes: set<Node>, req: Requirements, decision: Option<NodeId>) {
    match decision
    case None => forall n :: n in nodes ==> !Eligible(n, req)
    case Some(id) => exists n :: n in nodes && n.id == id && Eligible(n, req) && NothingBefore(nodes, req, n)
  }

  ghost predicate NothingBefore(nodes: set<Node>, req: Requirements, n: Node) {
    forall m :: m in nodes && Eligible(m, req) ==> !Before(m, n)
  }

  method ScheduleWorkload(nodes: seq<Node>, req: Requirements) returns (decision: Option<NodeId>)
    ensures Decides((set n | n in nodes), req, decision)
  {
    var candidates: seq<Node> := [];
    for i := 0 to |nodes|
      invariant forall n :: n in candidates <==> n in nodes[..i] && Eligible(n, req)
    {
      var reasons := Reasons(nodes[i], req);
      if reasons == [] { candidates := candidates + [nodes[i]]; }
    }
    if candidates == [] {
      assert forall n :: n in nodes && Eligible(n, req) ==> n in candidates;
      return None;
    }
    hide ScoreNode, Eligible;
    // The source sorts the candidates and takes the first; only that first one matters.
    var selected := candidates[0];
    for i := 1 to |candidates|
      invariant selected in candidates
      invariant forall m :: m in candidates[..i] ==> !Before(m, selected)
    {
      BeforeIsTransitive(candidates[..i], selected, candidates[i]);
      if Before(candidates[i], selected) { selected := candidates[i]; }
    }
    assert candidates[..|candidates|] == candidates;
    assert NothingBefore((set n | n in nodes), req, selected);
    decision := Some(selected.id);
  }

  /** The decision depends on the set of nodes alone, not on the order they are listed in. */
  lemma DecisionIsUnique(nodes: set<Node>, req: Requirements, a: Option<NodeId>, b: Option<NodeId>)
    requires Decides(nodes, req, a) && Decides(nodes, req, b)
    ensures a == b
  {
    if a.Some? && b.Some? {
      var m :| m in nodes && m.id == a.value && Eligible(m, req) && NothingBefore(nodes, req, m);
      var n :| n in nodes && n.id == b.value && Eligible(n, req) && NothingBefore(nodes, req, n);
    }
  }

  /** What is free of a quantity, as a share of what can be allocated; nothing of nothing. */
  predicate IsFreeShare(share: real, quantity: Quantity) {
    if quantity.allocatable == 0 then share == 0.0
    else share * quantity.allocatable as real == (quantity.allocatable - quantity.reserved) as real
  }

  /** The shares of CPU, memory and storage that a node has free, added up. */
  ghost predicate FreeShares(node: Node, sum: real) {
    exists cpu: real, memory: real, storage: real ::
      && IsFreeShare(cpu, node.resources.cpuMilli) && IsFreeShare(memory, node.resources.memoryMib)
      && IsFreeShare(storage, node.resources.storageMib)
      && sum == cpu + memory + storage
  }

  lemma ShareIsFree(quantity: Quantity)
    ensures IsFreeShare(Share(quantity), quantity)
  {
  }

  lemma FreeShareIsUnique(quantity: Quantity, share: real)
    requires IsFreeShare(share, quantity)
    ensures share == Share(quantity)
  {
    if quantity.allocatable != 0 {
      ProductFixes(share, Share(quantity), quantity.allocatable as real);
    }
  }

  lemma ProductFixes(a: real, b: real, c: real)
    requires c != 0.0 && a * c == b * c
    ensures a == b
  {
    assert a == a * c / c && b == b * c / c;
  }

  /** The order of two candidates: more free shares in sum first, and at equal sums the smaller id. */
  lemma BeforeIsByFreeShares(left: Node, right: Node, l: real, r: real)
    requires FreeShares(left, l) && FreeShares(right, r)
    ensures Before(left, right) <==> l > r || (l == r && left.id.rank < right.id.rank)
  {
    SharesGiveScore(left, l);
    SharesGiveScore(right, r);
  }

  lemma SharesGiveScore(node: Node, sum: real)
    requires FreeShares(node, sum)
    ensures ScoreNode(node) * 3.0 == sum
  {
    var cpu: real, memory: real, storage: real :|
      && IsFreeShare(cpu, node.resources.cpuMilli) && IsFreeShare(memory, node.resources.memoryMib)
      && IsFreeShare(storage, node.resources.storageMib)
      && sum == cpu + memory + storage;
    FreeShareIsUnique(node.resources.cpuMilli, cpu);
    FreeShareIsUnique(node.resources.memoryMib, memory);
    FreeShareIsUnique(node.resources.storageMib, storage);
  }

  lemma EveryNodeHasShares(node: Node)
    ensures exists sum :: FreeShares(node, sum)
  {
    ShareIsFree(node.resources.cpuMilli);
    ShareIsFree(node.resources.memoryMib);
    ShareIsFree(node.resources.storageMib);
    var resources := node.resources;
    assert FreeShares(node, Share(resources.cpuMilli) + Share(resources.memoryMib) + Share(resources.storageMib));
  }

  /**
   * The decision in these terms: the chosen node has the most free shares among the eligible, the smallest id among
   * equals.
   */
  lemma ChosenHasMostFree(nodes: set<Node>, req: Requirements, id: NodeId)
    requires Decides(nodes, req, Some(id))
    ensures exists n, most ::
              && n in nodes && n.id == id && Eligible(n, req) && FreeShares(n, most)
              && forall m, sum :: m in nodes && Eligible(m, req) && FreeShares(m, sum) ==>
                   sum < most || (sum == most && id.rank <= m.id.rank)
  {
    var n :| n in nodes && n.id == id && Eligible(n, req) && NothingBefore(nodes, req, n);
    EveryNodeHasShares(n);
    var most :| FreeShares(n, most);
    hide FreeShares, Eligible;
    forall m, sum | m in nodes && Eligible(m, req) && FreeShares(m, sum)
      ensures sum < most || (sum == most && id.rank <= m.id.rank)
    {
      BeforeIsByFreeShares(m, n, sum, most);
    }
  }

  ghost predicate DistinctIds(nodes: set<Node>) {
    forall m, n :: m in nodes && n in nodes && m.id == n.id ==> m == n
  }

  /** Nodes other than the chosen one may vanish without changing the decision. */
  lemma LosingOthersKeepsTheDecision(nodes: set<Node>, fewer: set<Node>, req: Requirements, id: NodeId,
                                     decision: Option<NodeId>)
    requires Decides(nodes, req, Some(id)) && Decides(fewer, req, decision)
    requires fewer <= nodes && DistinctIds(nodes) && exists n :: n in fewer && n.id == id
    ensures decision == Some(id)
  {
    var n :| n in nodes && n.id == id && Eligible(n, req) && NothingBefore(nodes, req, n);
    assert n in fewer && NothingBefore(fewer, req, n);
    assert Decides(fewer, req, Some(id));
    DecisionIsUnique(fewer, req, decision, Some(id));
  }

  /** Pinned to a node, the scheduler returns that node or none; none exactly when it is not eligible. */
  lemma PinnedDecision(nodes: set<Node>, req: Requirements, pinned: NodeId, decision: Option<NodeId>)
    requires Decides(nodes, req, decision) && req.requiredNode == Some(pinned)
    ensures decision == None || decision == Some(pinned)
    ensures decision == None <==> !exists n :: n in nodes && n.id == pinned && Eligible(n, req)
  {
  }

  /** Pinning a workload to the node it would get anyway changes nothing. */
  lemma PinningTheChoice(nodes: set<Node>, req: Requirements, id: NodeId, decision: Option<NodeId>)
    requires Decides(nodes, req, Some(id)) && Decides(nodes, req.(requiredNode := Some(id)), decision)
    ensures decision == Some(id)
  {
    var n :| n in nodes && n.id == id && Eligible(n, req) && NothingBefore(nodes, req, n);
    assert Eligible(n, req.(requiredNode := Some(id)));
  }

  /** The chosen node has room in every resource, and none of the requested host ports is reserved on it. */
  lemma ChosenHasRoom(nodes: set<Node>, req: Requirements, id: NodeId)
    requires Decides(nodes, req, Some(id)) && DistinctIds(nodes)
    ensures forall n :: n in nodes && n.id == id ==>
              && Fits(n.resources.cpuMilli, req.cpuMilli)
              && Fits(n.resources.memoryMib, req.memoryMib)
              && Fits(n.resources.storageMib, req.storageMib)
              && (forall h :: h in req.requestedHostPorts ==> h !in n.reservedHostPorts)
              && (req.requiredNode.Some? ==> req.requiredNode.value == id)
  {
  }
}
