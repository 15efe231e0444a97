/** Host ports: the policy, the dynamic search, and the assignment made for one placement. */
module Ports {
  import opened Wrappers

  const DYNAMIC_HOST_PORT_MIN := 30_000
  const DYNAMIC_HOST_PORT_MAX := 39_999
  const RANGE_SIZE := DYNAMIC_HOST_PORT_MAX - DYNAMIC_HOST_PORT_MIN + 1
  const RESERVED_HOST_PORTS: set<int> := {22, 80, 443, 3000, 3001, 5432}

  datatype PolicyError = InvalidPort | PrivilegedPort | ReservedPort

  function HostPortPolicyError(port: int): Option<PolicyError> {
    if port < 1 || port > 65_535 then Some(InvalidPort)
    else if port < 1024 then Some(PrivilegedPort)
    else if port in RESERVED_HOST_PORTS then Some(ReservedPort)
    else None
  }

  /**
   * A port is refused for lying outside the range of ports, below 1024, or among the ports of the host's own services.
   */
  lemma PolicyErrorsMean(port: int)
    ensures HostPortPolicyError(port) == Some(InvalidPort) <==> port <= 0 || port >= 65_536
    ensures HostPortPolicyError(port) == Some(PrivilegedPort) <==> 0 < port <= 1_023
    ensures HostPortPolicyError(port) == Some(ReservedPort) <==> port == 3000 || port == 3001 || port == 5432
    ensures HostPortPolicyError(port) == None <==> 1_023 < port < 65_536 && port != 3000 && port != 3001 && port != 5432
  {
  }

  predicate Dynamic(port: int) { DYNAMIC_HOST_PORT_MIN <= port <= DYNAMIC_HOST_PORT_MAX }

  /** The hash that spreads workloads over the range. */
  /** The first UTF-16 code unit of a character. */
  function CharCodeAt0(c: char): (code: nat)
    ensures code < 0x1_0000
  {
    var point := c as int;
    if point < 0x1_0000 then point else 0xD800 + (point - 0x1_0000) / 0x400
  }

  function SeedOffset(seed: string): (offset: int)
    ensures 0 <= offset < RANGE_SIZE
  {
    if seed == "" then 0
    else (SeedOffset(seed[..|seed| - 1]) * 31 + CharCodeAt0(seed[|seed| - 1])) % RANGE_SIZE
  }

  function PortAt(offset: int, attempt: int): int { DYNAMIC_HOST_PORT_MIN + (offset + attempt) % RANGE_SIZE }

  /** The first `n` ports of the walk are occupied and the next one is not. */
  ghost predicate FirstFreeAt(occupied: set<int>, offset: int, n: nat) {
    PortAt(offset, n) !in occupied && forall k :: 0 <= k < n ==> PortAt(offset, k) in occupied
  }

  /** The walk from any offset meets every port of the range. */
  lemma WalkCoversRange(offset: int, port: int)
    requires Dynamic(port)
    ensures exists attempt :: 0 <= attempt < RANGE_SIZE && PortAt(offset, attempt) == port
  {
    var attempt := (port - DYNAMIC_HOST_PORT_MIN - offset) % RANGE_SIZE;
    assert PortAt(offset, attempt) == port;
  }

  /** The first port of the walk, from a given attempt on, that is not occupied. */
  function FreeFrom(occupied: set<int>, offset: int, attempt: nat): Option<int>
    requires attempt <= RANGE_SIZE
    decreases RANGE_SIZE - attempt
  {
    if attempt == RANGE_SIZE then None
    else if PortAt(offset, attempt) !in occupied then Some(PortAt(offset, attempt))
    else FreeFrom(occupied, offset, attempt + 1)
  }

  function Search(occupied: set<int>, seed: string): Option<int> { FreeFrom(occupied, SeedOffset(seed), 0) }

  lemma {:induction false} FreeFromIs(occupied: set<int>, offset: int, attempt: nat)
    requires attempt <= RANGE_SIZE
    ensures var port := FreeFrom(occupied, offset, attempt);
            && (port.Some? ==> Dynamic(port.value) && port.value !in occupied)
            && (port.None? <==> forall k :: attempt <= k < RANGE_SIZE ==> PortAt(offset, k) in occupied)
    decreases RANGE_SIZE - attempt
  {
    if attempt < RANGE_SIZE && PortAt(offset, attempt) in occupied {
      FreeFromIs(occupied, offset, attempt + 1);
    }
  }

  /** The search yields a free port of the range, none exactly when the whole range is occupied. */
  lemma SearchFinds(occupied: set<int>, seed: string)
    ensures var port := Search(occupied, seed);
            && (port.Some? ==> Dynamic(port.value) && port.value !in occupied)
            && (port.None? <==> forall p :: Dynamic(p) ==> p in occupied)
  {
    FreeFromIs(occupied, SeedOffset(seed), 0);
    forall p | Dynamic(p) && Search(occupied, seed).None? ensures p in occupied {
      WalkCoversRange(SeedOffset(seed), p);
    }
  }

  /**
   * A free port of the range, the first one met by the walk from the seed's offset; none exactly when all ten
   * thousand are occupied.
   */
  method ChooseDynamicHostPort(occupied: set<int>, seed: string) returns (port: Option<int>)
    ensures port.Some? ==>
              30_000 <= port.value <= 39_999 && port.value !in occupied && HostPortPolicyError(port.value) == None
    ensures port.Some? ==> exists n: nat ::
              FirstFreeAt(occupied, SeedOffset(seed), n) && port.value == PortAt(SeedOffset(seed), n)
    ensures port.None? <==> forall p :: 30_000 <= p <= 39_999 ==> p in occupied
    ensures port == Search(occupied, seed)
  {
    var offset := 0;
    for i := 0 to |seed|
      invariant offset == SeedOffset(seed[..i])
    {
      assert seed[..i + 1][..i] == seed[..i];
      offset := (offset * 31 + CharCodeAt0(seed[i])) % RANGE_SIZE;
    }
    assert seed[..|seed|] == seed;
    hide SeedOffset;
    for attempt := 0 to RANGE_SIZE
      invariant forall k :: 0 <= k < attempt ==> PortAt(offset, k) in occupied
      invariant Search(occupied, seed) == FreeFrom(occupied, offset, attempt)
    {
      var candidate := DYNAMIC_HOST_PORT_MIN + (offset + attempt) % RANGE_SIZE;
      assert candidate == PortAt(offset, attempt);
      assert candidate !in occupied ==> FirstFreeAt(occupied, offset, attempt);
      if candidate !in occupied && candidate !in RESERVED_HOST_PORTS {
        return Some(candidate);
      }
    }
    forall p | Dynamic(p) ensures p in occupied {
      WalkCoversRange(offset, p);
    }
    port := None;
  }

  // ---------------------------------------------------------------------------------------------------------------
  // The ports of one placement.

  datatype Protocol = Tcp | Udp

  datatype HostPort = HostPort(port: int, protocol: Protocol)

  /** A configured port. `fixed` is the requested host port or, failing that, the external one. */
  datatype PortSpec = PortSpec(containerPort: int, protocol: Protocol, isPublic: bool, fixed: Option<int>)

  datatype Assigned = Assigned(containerPort: int, hostPort: HostPort)

  function PublicPorts(ports: seq<PortSpec>): (r: seq<PortSpec>)
    ensures forall p :: p in r <==> p in ports && p.isPublic
  {
    if ports == [] then []
    else
      var init, last := ports[..|ports| - 1], ports[|ports| - 1];
      assert ports == init + [last];
      if last.isPublic then PublicPorts(init) + [last] else PublicPorts(init)
  }

  function FixedHostPorts(ports: seq<PortSpec>): (r: seq<HostPort>)
    ensures forall h :: h in r <==> exists p ::
              p in ports && p.isPublic && p.fixed == Some(h.port) && p.protocol == h.protocol
  {
    if ports == [] then []
    else
      var init, last := ports[..|ports| - 1], ports[|ports| - 1];
      assert ports == init + [last];
      if last.isPublic && last.fixed.Some? then FixedHostPorts(init) + [HostPort(last.fixed.value, last.protocol)]
      else FixedHostPorts(init)
  }

  function Held(placed: seq<Assigned>): set<HostPort> {
    set a | a in placed :: a.hostPort
  }

  /** The assignments answer the public ports in order, each fixed port with itself. */
  ghost predicate Answers(publicPorts: seq<PortSpec>, placed: seq<Assigned>) {
    && |placed| == |publicPorts|
    && forall i :: 0 <= i < |placed| ==>
         && placed[i].containerPort == publicPorts[i].containerPort
         && placed[i].hostPort.protocol == publicPorts[i].protocol
         && (publicPorts[i].fixed.Some? ==> placed[i].hostPort.port == publicPorts[i].fixed.value)
         && (publicPorts[i].fixed.None? ==> Dynamic(placed[i].hostPort.port))
  }

  ghost predicate PairwiseDistinct(placed: seq<Assigned>) {
    forall i, j :: 0 <= i < j < |placed| ==> placed[i].hostPort != placed[j].hostPort
  }

  type Seeds = PortSpec -> string

  /** The occupied ports of one protocol. */
  function Taken(active: set<HostPort>, given: seq<Assigned>, protocol: Protocol): set<int> {
    set h | h in active + Held(given) && h.protocol == protocol :: h.port
  }

  /** The host port of one public port: its fixed one, or the search's. */
  function HostPortOf(port: PortSpec, active: set<HostPort>, given: seq<Assigned>, seeds: Seeds): Option<int> {
    if port.fixed.Some? then port.fixed else Search(Taken(active, given, port.protocol), seeds(port))
  }

  /** The assignments made along the list; a port whose search fails is passed over. */
  function Given(ports: seq<PortSpec>, active: set<HostPort>, seeds: Seeds): seq<Assigned> {
    if ports == [] then []
    else
      var given, last := Given(ports[..|ports| - 1], active, seeds), ports[|ports| - 1];
      if !last.isPublic then given
      else
        match HostPortOf(last, active, given, seeds)
        case None => given
        case Some(port) => given + [Assigned(last.containerPort, HostPort(port, last.protocol))]
  }

  /** All public ports assigned, or failure. */
  function Assignment(ports: seq<PortSpec>, active: set<HostPort>, seeds: Seeds): Option<seq<Assigned>> {
    if |Given(ports, active, seeds)| == |PublicPorts(ports)| then Some(Given(ports, active, seeds)) else None
  }

  lemma GivenSnoc(init: seq<PortSpec>, last: PortSpec, active: set<HostPort>, seeds: Seeds)
    ensures Given(init + [last], active, seeds)
         == if last.isPublic && HostPortOf(last, active, Given(init, active, seeds), seeds).Some?
            then Given(init, active, seeds)
                 + [Assigned(last.containerPort,
                     HostPort(HostPortOf(last, active, Given(init, active, seeds), seeds).value, last.protocol))]
            else Given(init, active, seeds)
    ensures PublicPorts(init + [last]) == if last.isPublic then PublicPorts(init) + [last] else PublicPorts(init)
  {
    assert (init + [last])[..|init|] == init;
  }

  /** The search occupies one set per protocol and adds each port as it is assigned. */
  method AssignHostPorts(ports: seq<PortSpec>, active: set<HostPort>, seeds: Seeds)
    returns (placed: Option<seq<Assigned>>)
    ensures placed == Assignment(ports, active, seeds)
    ensures placed.Some? ==> Answers(PublicPorts(ports), placed.value)
    ensures placed.Some? && Safe(ports, active) ==> Clean(active, placed.value)
    ensures placed.None? <==> SomeSearchFails(ports, active, seeds)
  {
    hide Given, PublicPorts, Search, SomeSearchFails, Safe, Clean, Answers;
    var given: seq<Assigned> := [];
    var occupied := active;
    var publicCount := 0;
    StartsEmpty(active, seeds);
    for i := 0 to |ports|
      invariant given == Given(ports[..i], active, seeds) && occupied == active + Held(given)
      invariant publicCount == |PublicPorts(ports[..i])|
    {
      assert ports[..i + 1] == ports[..i] + [ports[i]];
      var port := ports[i];
      GivenSnoc(ports[..i], port, active, seeds);
      if port.isPublic {
        publicCount := publicCount + 1;
        var hostPort := port.fixed;
        if hostPort.None? {
          hostPort := ChooseDynamicHostPort(set h | h in occupied && h.protocol == port.protocol ::
              h.port, seeds(port));
        }
        if hostPort.Some? {
          var next := Assigned(port.containerPort, HostPort(hostPort.value, port.protocol));
          HeldSnoc(given, next);
          given, occupied := given + [next], occupied + {next.hostPort};
        }
      }
    }
    assert ports[..|ports|] == ports;
    FailsIff(ports, active, seeds);
    SucceedsWithAnswers(ports, active, seeds);
    if Safe(ports, active) {
      SafeIsClean(ports, active, seeds);
    }
    placed := if |given| == publicCount then Some(given) else None;
  }

  lemma StartsEmpty(active: set<HostPort>, seeds: Seeds)
    ensures Given([], active, seeds) == [] && PublicPorts([]) == [] && active == active + Held([])
  {
  }

  lemma HeldSnoc(given: seq<Assigned>, next: Assigned)
    ensures Held(given + [next]) == Held(given) + {next.hostPort}
  {
  }

  // ---------------------------------------------------------------------------------------------------------------
  // When an assignment fails.

  /**
   * The port needs a search and finds its whole range taken by the active reservations and the assignments before it.
   */
  ghost predicate SearchFailsAt(ports: seq<PortSpec>, active: set<HostPort>, seeds: Seeds, i: nat)
    requires i < |ports|
  {
    && ports[i].isPublic && ports[i].fixed.None?
    && forall p :: DYNAMIC_HOST_PORT_MIN <= p <= DYNAMIC_HOST_PORT_MAX ==>
         HostPort(p, ports[i].protocol) in active
             || HostPort(p, ports[i].protocol) in Held(Given(ports[..i], active, seeds))
  }

  ghost predicate SomeSearchFails(ports: seq<PortSpec>, active: set<HostPort>, seeds: Seeds) {
    exists i :: 0 <= i < |ports| && SearchFailsAt(ports, active, seeds, i)
  }

  lemma TakenIs(active: set<HostPort>, given: seq<Assigned>, protocol: Protocol, p: int)
    ensures p in Taken(active, given, protocol) <==>
              HostPort(p, protocol) in active || HostPort(p, protocol) in Held(given)
  {
    if HostPort(p, protocol) in active + Held(given) {
      assert HostPort(p, protocol).port in Taken(active, given, protocol);
    }
  }

  lemma NoHostPortIff(port: PortSpec, active: set<HostPort>, given: seq<Assigned>, seeds: Seeds)
    ensures HostPortOf(port, active, given, seeds).None? <==>
              && port.fixed.None?
              && forall p :: DYNAMIC_HOST_PORT_MIN <= p <= DYNAMIC_HOST_PORT_MAX ==>
                   HostPort(p, port.protocol) in active || HostPort(p, port.protocol) in Held(given)
    ensures port.fixed.None? && HostPortOf(port, active, given, seeds).Some? ==>
              var p := HostPortOf(port, active, given, seeds).value;
              Dynamic(p) && HostPort(p, port.protocol) !in active + Held(given)
  {
    hide Held, Search;
    SearchFinds(Taken(active, given, port.protocol), seeds(port));
    forall p ensures p in Taken(active, given, port.protocol)
        <==> HostPort(p, port.protocol) in active || HostPort(p, port.protocol) in Held(given) {
      TakenIs(active, given, port.protocol, p);
    }
    hide Taken;
    assert forall p :: Dynamic(p) <==> DYNAMIC_HOST_PORT_MIN <= p <= DYNAMIC_HOST_PORT_MAX;
  }

  /** An assignment fails exactly when a search of it met a full range. */
  lemma {:induction false} FailsIff(ports: seq<PortSpec>, active: set<HostPort>, seeds: Seeds)
    ensures |Given(ports, active, seeds)| <= |PublicPorts(ports)|
    ensures |Given(ports, active, seeds)| < |PublicPorts(ports)| <==> SomeSearchFails(ports, active, seeds)
  {
    if ports == [] {
      assert !SomeSearchFails(ports, active, seeds);
    } else {
      hide Given, PublicPorts, HostPortOf, SomeSearchFails;
      var init, last := ports[..|ports| - 1], ports[|ports| - 1];
      FailsIff(init, active, seeds);
      assert ports == init + [last];
      GivenSnoc(init, last, active, seeds);
      NoHostPortIff(last, active, Given(init, active, seeds), seeds);
      FailureSnoc(init, last, active, seeds);
    }
  }

  lemma FailureSnoc(init: seq<PortSpec>, last: PortSpec, active: set<HostPort>, seeds: Seeds)
    ensures SomeSearchFails(init + [last], active, seeds)
       <==> || SomeSearchFails(init, active, seeds)
            || (last.isPublic && HostPortOf(last, active, Given(init, active, seeds), seeds).None?)
  {
    NoHostPortIff(last, active, Given(init, active, seeds), seeds);
    hide Given, HostPortOf, Held;
    var ports := init + [last];
    assert ports[..|init|] == init;
    assert SearchFailsAt(ports, active, seeds, |init|)
        <==> last.isPublic && HostPortOf(last, active, Given(init, active, seeds), seeds).None?;
    forall i | 0 <= i < |init| ensures SearchFailsAt(ports, active, seeds, i) == SearchFailsAt(init, active, seeds, i) {
      assert ports[..i] == init[..i];
    }
    hide SearchFailsAt;
    if i :| 0 <= i < |init| && SearchFailsAt(init, active, seeds, i) {
      assert SearchFailsAt(ports, active, seeds, i);
    }
  }

  lemma {:induction false} SucceedsWithAnswers(ports: seq<PortSpec>, active: set<HostPort>, seeds: Seeds)
    ensures |Given(ports, active, seeds)| <= |PublicPorts(ports)|
    ensures |Given(ports, active, seeds)| == |PublicPorts(ports)| ==>
              Answers(PublicPorts(ports), Given(ports, active, seeds))
  {
    if ports != [] {
      var init, last := ports[..|ports| - 1], ports[|ports| - 1];
      SucceedsWithAnswers(init, active, seeds);
      NoHostPortIff(last, active, Given(init, active, seeds), seeds);
    }
  }

  // ---------------------------------------------------------------------------------------------------------------
  // When an assignment is distinct.

  /** The assigned host ports differ pairwise and from the active reservations. */
  ghost predicate Clean(active: set<HostPort>, given: seq<Assigned>) {
    PairwiseDistinct(given) && Held(given) !! active
  }

  /** The later port's fixed host port is the earlier one's, or one the earlier one's search may find. */
  predicate MayClash(earlier: PortSpec, later: PortSpec) {
    && earlier.isPublic && later.isPublic && earlier.protocol == later.protocol && later.fixed.Some?
    && (earlier.fixed == later.fixed || (earlier.fixed.None? && Dynamic(later.fixed.value)))
  }

  predicate PortsApart(ports: seq<PortSpec>) {
    forall i, j :: 0 <= i < j < |ports| ==> !MayClash(ports[i], ports[j])
  }

  predicate FixedFree(ports: seq<PortSpec>, active: set<HostPort>) {
    forall i :: 0 <= i < |ports| && ports[i].isPublic && ports[i].fixed.Some? ==>
        HostPort(ports[i].fixed.value, ports[i].protocol) !in active
  }

  /**
   * What can be checked beforehand: fixed host ports differ, none is actively reserved, and none of the dynamic range
   * follows a port of its protocol that is searched for.
   */
  predicate Safe(ports: seq<PortSpec>, active: set<HostPort>) {
    PortsApart(ports) && FixedFree(ports, active)
  }

  /** Where an assignment comes from. */
  ghost predicate ComesFrom(a: Assigned, port: PortSpec) {
    && port.isPublic && port.protocol == a.hostPort.protocol
    && (port.fixed == Some(a.hostPort.port) || (port.fixed.None? && Dynamic(a.hostPort.port)))
  }

  lemma {:induction false} EachComesFrom(ports: seq<PortSpec>, active: set<HostPort>, seeds: Seeds, a: Assigned)
    requires a in Given(ports, active, seeds)
    ensures exists i :: 0 <= i < |ports| && ComesFrom(a, ports[i])
  {
    var init, last := ports[..|ports| - 1], ports[|ports| - 1];
    if a in Given(init, active, seeds) {
      EachComesFrom(init, active, seeds, a);
      var i :| 0 <= i < |init| && ComesFrom(a, init[i]);
      assert ComesFrom(a, ports[i]);
    } else {
      NoHostPortIff(last, active, Given(init, active, seeds), seeds);
      assert ComesFrom(a, ports[|ports| - 1]);
    }
  }

  /** The next port clashes with nothing: a dynamic one was searched free, a fixed one is apart from all others. */
  lemma NextIsFree(ports: seq<PortSpec>, active: set<HostPort>, seeds: Seeds)
    requires ports != [] && Safe(ports, active) && ports[|ports| - 1].isPublic
    ensures var given := Given(ports[..|ports| - 1], active, seeds);
            var port := HostPortOf(ports[|ports| - 1], active, given, seeds);
            port.Some? ==> HostPort(port.value, ports[|ports| - 1].protocol) !in active + Held(given)
  {
    hide Given, Search, Taken;
    var init, last := ports[..|ports| - 1], ports[|ports| - 1];
    var given := Given(init, active, seeds);
    NoHostPortIff(last, active, given, seeds);
    if last.fixed.Some? {
      forall a | a in given ensures a.hostPort != HostPort(last.fixed.value, last.protocol) {
        EachComesFrom(init, active, seeds, a);
        var i :| 0 <= i < |init| && ComesFrom(a, init[i]);
        assert !MayClash(ports[i], ports[|ports| - 1]);
      }
    }
  }

  lemma {:induction false} SafeIsClean(ports: seq<PortSpec>, active: set<HostPort>, seeds: Seeds)
    requires Safe(ports, active)
    ensures Clean(active, Given(ports, active, seeds))
  {
    if ports != [] {
      var init, last := ports[..|ports| - 1], ports[|ports| - 1];
      assert forall i, j :: 0 <= i < j < |init| ==> !MayClash(ports[i], ports[j]);
      SafeIsClean(init, active, seeds);
      var given := Given(init, active, seeds);
      assert forall i :: 0 <= i < |given| ==> given[i].hostPort in Held(given);
      if last.isPublic {
        NextIsFree(ports, active, seeds);
        if HostPortOf(last, active, given, seeds).Some? {
          HeldSnoc(given, Assigned(last.containerPort,
              HostPort(HostPortOf(last, active, given, seeds).value, last.protocol)));
        }
      }
    }
  }

  // ---------------------------------------------------------------------------------------------------------------
  // The other half: unsafe ports clash under some seeds.

  /** The reserved or assigned host ports of the dynamic range and one protocol. */
  function DynamicTaken(active: set<HostPort>, given: seq<Assigned>, protocol: Protocol): set<HostPort> {
    set h | h in active + Held(given) && h.protocol == protocol && Dynamic(h.port)
  }

  function RangeOf(protocol: Protocol): set<HostPort> {
    set p | DYNAMIC_HOST_PORT_MIN <= p <= DYNAMIC_HOST_PORT_MAX :: HostPort(p, protocol)
  }

  lemma {:induction false} SubsetSize(a: set<HostPort>, b: set<HostPort>)
    requires a <= b
    ensures |a| <= |b|
    ensures a != b ==> |a| < |b|
  {
    if x :| x in a {
      SubsetSize(a - {x}, b - {x});
    } else if x :| x in b {
      assert |b| >= 1;
    }
  }

  /** One more assignment takes one more port of the range exactly when it is a dynamic one that was free. */
  lemma TakenSnoc(active: set<HostPort>, given: seq<Assigned>, next: Assigned, protocol: Protocol)
    ensures |DynamicTaken(active, given + [next], protocol)|
         == |DynamicTaken(active, given, protocol)|
            + if next.hostPort.protocol == protocol && Dynamic(next.hostPort.port)
                && next.hostPort !in active + Held(given) then 1 else 0
  {
    HeldSnoc(given, next);
    if next.hostPort.protocol == protocol && Dynamic(next.hostPort.port) {
      assert DynamicTaken(active, given + [next], protocol) == DynamicTaken(active, given, protocol) + {next.hostPort};
      if next.hostPort in active + Held(given) {
        assert DynamicTaken(active, given, protocol) + {next.hostPort} == DynamicTaken(active, given, protocol);
      }
    } else {
      assert DynamicTaken(active, given + [next], protocol) == DynamicTaken(active, given, protocol);
    }
  }

  /** Where one search found a port, a search over no more taken ports finds one too. */
  lemma FewerTakenFinds(port: PortSpec, active: set<HostPort>, given: seq<Assigned>, fewer: seq<Assigned>,
                        seeds: Seeds, others: Seeds)
    requires port.fixed.None? && HostPortOf(port, active, given, seeds).Some?
    requires |DynamicTaken(active, fewer, port.protocol)| <= |DynamicTaken(active, given, port.protocol)|
    ensures HostPortOf(port, active, fewer, others).Some?
  {
    hide HostPortOf, Held;
    NoHostPortIff(port, active, given, seeds);
    NoHostPortIff(port, active, fewer, others);
    var range := RangeOf(port.protocol);
    SubsetSize(DynamicTaken(active, given, port.protocol), range);
    var found := HostPort(HostPortOf(port, active, given, seeds).value, port.protocol);
    assert found in range && found !in DynamicTaken(active, given, port.protocol);
    if HostPortOf(port, active, fewer, others).None? {
      assert range <= DynamicTaken(active, fewer, port.protocol);
      SubsetSize(range, DynamicTaken(active, fewer, port.protocol));
    }
  }

  lemma CleanPrefix(active: set<HostPort>, given: seq<Assigned>, next: Assigned)
    requires Clean(active, given + [next])
    ensures Clean(active, given) && next.hostPort !in active + Held(given)
  {
    var all := given + [next];
    HeldSnoc(given, next);
    forall i, j | 0 <= i < j < |given| ensures given[i].hostPort != given[j].hostPort {
      assert all[i].hostPort != all[j].hostPort;
    }
    forall a | a in given ensures a.hostPort != next.hostPort {
      var i :| 0 <= i < |given| && given[i] == a;
      assert all[i].hostPort != all[|given|].hostPort;
    }
  }

  /**
   * As far as one assignment succeeds without a clash, one from any other seeds succeeds and takes no more of the
   * range.
   */
  lemma {:induction false} OthersSucceedToo(ports: seq<PortSpec>, active: set<HostPort>, seeds: Seeds, others: Seeds,
                                            protocol: Protocol)
    requires |Given(ports, active, seeds)| == |PublicPorts(ports)| && Clean(active, Given(ports, active, seeds))
    ensures |Given(ports, active, others)| == |PublicPorts(ports)|
    ensures |DynamicTaken(active, Given(ports, active, others), protocol)| <= |DynamicTaken(active,
              Given(ports, active, seeds), protocol)|
  {
    if ports != [] {
      var init, last := ports[..|ports| - 1], ports[|ports| - 1];
      assert ports == init + [last];
      GivenSnoc(init, last, active, seeds);
      GivenSnoc(init, last, active, others);
      FailsIff(init, active, seeds);
      var given, fewer := Given(init, active, seeds), Given(init, active, others);
      hide Given, PublicPorts, Clean, DynamicTaken, FreeFrom;
      if last.isPublic {
        var next := Given(ports, active, seeds)[|given|];
        CleanPrefix(active, given, next);
        OthersSucceedToo(init, active, seeds, others, protocol);
        OthersSucceedToo(init, active, seeds, others, last.protocol);
        if last.fixed.None? {
          FewerTakenFinds(last, active, given, fewer, seeds, others);
        }
        NextsCompare(last, active, given, fewer, seeds, others, protocol);
      } else {
        OthersSucceedToo(init, active, seeds, others, protocol);
      }
    }
  }

  lemma NextsCompare(last: PortSpec, active: set<HostPort>, given: seq<Assigned>, fewer: seq<Assigned>, seeds: Seeds,
                     others: Seeds, protocol: Protocol)
    requires last.isPublic && HostPortOf(last, active, given, seeds).Some?
              && HostPortOf(last, active, fewer, others).Some?
    requires HostPort(HostPortOf(last, active, given, seeds).value, last.protocol) !in active + Held(given)
    requires |DynamicTaken(active, fewer, protocol)| <= |DynamicTaken(active, given, protocol)|
    ensures var next := Assigned(last.containerPort,
              HostPort(HostPortOf(last, active, given, seeds).value, last.protocol));
            var other := Assigned(last.containerPort,
                HostPort(HostPortOf(last, active, fewer, others).value, last.protocol));
            |DynamicTaken(active, fewer + [other], protocol)| <= |DynamicTaken(active, given + [next], protocol)|
  {
    hide DynamicTaken, Search, Held;
    NoHostPortIff(last, active, given, seeds);
    NoHostPortIff(last, active, fewer, others);
    TakenSnoc(active, given,
        Assigned(last.containerPort, HostPort(HostPortOf(last, active, given, seeds).value, last.protocol)), protocol);
    TakenSnoc(active, fewer,
        Assigned(last.containerPort, HostPort(HostPortOf(last, active, fewer, others).value, last.protocol)), protocol);
  }

  /** The seeds of one placement: the workload's id, then what tells its ports apart. */
  function SeedsOf(id: string, suffix: PortSpec -> string): Seeds { (port: PortSpec) => id + suffix(port) }

  /** The hash can start anywhere, whatever the seed ends in: 31 has an inverse modulo the size of the range. */
  lemma {:induction false} OffsetIsReached(suffix: string, offset: nat)
    requires offset < RANGE_SIZE
    ensures exists id :: SeedOffset(id + suffix) == offset
  {
    if suffix == "" {
      StartsAnywhere(offset);
    } else {
      hide *;
      var init, last := suffix[..|suffix| - 1], suffix[|suffix| - 1];
      var before := StepBack(offset, CharCodeAt0(last));
      OffsetIsReached(init, before);
      var id :| SeedOffset(id + init) == before;
      OneMoreCharacter(id, init, last, offset);
      assert suffix == init + [last];
    }
  }

  lemma StartsAnywhere(offset: nat)
    requires offset < RANGE_SIZE
    ensures exists id :: SeedOffset(id + "") == offset
  {
    assert SeedOffset("") == 0;
    hide SeedOffset;
    var id := [offset as char];
    SeedOffsetSnoc("", offset as char, offset);
    assert id + "" == "" + [offset as char];
  }

  lemma OneMoreCharacter(id: string, init: string, last: char, offset: nat)
    requires (SeedOffset(id + init) * 31 + CharCodeAt0(last)) % RANGE_SIZE == offset
    ensures SeedOffset(id + (init + [last])) == offset
  {
    hide SeedOffset;
    SeedOffsetSnoc(id + init, last, CharCodeAt0(last));
    assert id + (init + [last]) == id + init + [last];
  }

  /** The hash takes in one character after the other by its code, or the high surrogate beyond the basic plane. */
  lemma SeedOffsetSnoc(seed: string, c: char, unit: nat)
    requires if c as int < 0x1_0000 then unit == c as int
             else 0 <= c as int - 0x1_0000 - (unit - 0xD800) * 0x400 < 0x400
    ensures SeedOffset(seed + [c]) == (SeedOffset(seed) * 31 + unit) % 10_000
  {
    assert (seed + [c])[..|seed|] == seed;
  }

  lemma StepBack(offset: nat, code: int) returns (before: nat)
    requires offset < RANGE_SIZE
    ensures before < RANGE_SIZE && (before * 31 + code) % RANGE_SIZE == offset
  {
    var x := (offset - code) * 3871;
    before := x % RANGE_SIZE;
    var k := 12 * (offset - code) - 31 * (x / RANGE_SIZE);
    assert before * 31 + code == k * RANGE_SIZE + offset;
    Remainder(k, offset);
  }

  lemma Remainder(k: int, offset: nat)
    requires offset < RANGE_SIZE
    ensures (k * RANGE_SIZE + offset) % RANGE_SIZE == offset
  {
  }

  lemma SearchStartsAt(port: int, seed: string, occupied: set<int>)
    requires Dynamic(port) && SeedOffset(seed) == port - DYNAMIC_HOST_PORT_MIN && port !in occupied
    ensures Search(occupied, seed) == Some(port)
  {
    assert PortAt(SeedOffset(seed), 0) == port;
  }

  lemma {:induction false} GivenGrows(ports: seq<PortSpec>, active: set<HostPort>, seeds: Seeds, i: nat)
    requires i <= |ports|
    ensures Given(ports[..i], active, seeds) <= Given(ports, active, seeds)
    ensures PublicPorts(ports[..i]) <= PublicPorts(ports)
  {
    if i == |ports| {
      assert ports[..i] == ports;
    } else {
      GivenGrows(ports[..|ports| - 1], active, seeds, i);
      assert ports[..|ports| - 1][..i] == ports[..i];
    }
  }

  /** After a search that starts at a port, that port is reserved or assigned. */
  lemma SearchTakes(ports: seq<PortSpec>, active: set<HostPort>, seeds: Seeds, port: int, i: nat)
    requires i < |ports| && ports[i].isPublic && ports[i].fixed.None?
    requires Dynamic(port) && SeedOffset(seeds(ports[i])) == port - DYNAMIC_HOST_PORT_MIN
    ensures HostPort(port, ports[i].protocol) in active + Held(Given(ports[..i + 1], active, seeds))
  {
    var given, protocol := Given(ports[..i], active, seeds), ports[i].protocol;
    assert ports[..i + 1] == ports[..i] + [ports[i]];
    GivenSnoc(ports[..i], ports[i], active, seeds);
    hide Given, Search;
    TakenIs(active, given, protocol, port);
    if port !in Taken(active, given, protocol) {
      SearchStartsAt(port, seeds(ports[i]), Taken(active, given, protocol));
    }
    if HostPortOf(ports[i], active, given, seeds).Some? {
      HeldSnoc(given, Assigned(ports[i].containerPort,
          HostPort(HostPortOf(ports[i], active, given, seeds).value, protocol)));
    }
  }

  /** A fixed host port that is already taken when its turn comes makes a clash. */
  lemma TakenFixedClashes(ports: seq<PortSpec>, active: set<HostPort>, seeds: Seeds, j: nat)
    requires j < |ports| && ports[j].isPublic && ports[j].fixed.Some?
    requires HostPort(ports[j].fixed.value, ports[j].protocol) in active + Held(Given(ports[..j], active, seeds))
    ensures !Clean(active, Given(ports, active, seeds))
  {
    var given := Given(ports[..j], active, seeds);
    assert ports[..j + 1] == ports[..j] + [ports[j]];
    GivenSnoc(ports[..j], ports[j], active, seeds);
    GivenGrows(ports, active, seeds, j + 1);
    hide Given, PublicPorts, Clean, Held;
    RepeatClashes(active, given, Assigned(ports[j].containerPort, HostPort(ports[j].fixed.value, ports[j].protocol)),
        Given(ports, active, seeds));
  }

  lemma RepeatClashes(active: set<HostPort>, given: seq<Assigned>, next: Assigned, all: seq<Assigned>)
    requires given + [next] <= all && next.hostPort in active + Held(given)
    ensures !Clean(active, all)
  {
    assert all[|given|] == (given + [next])[|given|] == next;
    assert next in all && next.hostPort in Held(all);
    if next.hostPort !in active {
      var a :| a in given && a.hostPort == next.hostPort;
      var k :| 0 <= k < |given| && given[k] == a;
      assert all[k] == (given + [next])[k] == a;
    }
  }

  /** If the assignment succeeds, it is clean. */
  ghost predicate AssignedCleanly(ports: seq<PortSpec>, active: set<HostPort>, seeds: Seeds) {
    Assignment(ports, active, seeds).Some? ==> Clean(active, Assignment(ports, active, seeds).value)
  }

  /** The placement's ports are distinct whatever its workload's id. */
  ghost predicate AlwaysClean(ports: seq<PortSpec>, active: set<HostPort>, suffix: PortSpec -> string) {
    forall id :: AssignedCleanly(ports, active, SeedsOf(id, suffix))
  }

  lemma UnsafeClashes(ports: seq<PortSpec>, active: set<HostPort>, suffix: PortSpec -> string, possible: string)
    requires Assignment(ports, active, SeedsOf(possible, suffix)).Some? && !Safe(ports, active)
    ensures !AlwaysClean(ports, active, suffix)
  {
    hide Given, PublicPorts, Clean, Held;
    if AssignedCleanly(ports, active, SeedsOf(possible, suffix)) {
      if !FixedFree(ports, active) {
        var i :| 0 <= i < |ports| && ports[i].isPublic && ports[i].fixed.Some?
                 && HostPort(ports[i].fixed.value, ports[i].protocol) in active;
        TakenFixedClashes(ports, active, SeedsOf(possible, suffix), i);
      } else {
        var i, j :| 0 <= i < j < |ports| && MayClash(ports[i], ports[j]);
        LaterFixedClashes(ports, active, suffix, possible, i, j);
      }
    }
  }

  lemma LaterFixedClashes(ports: seq<PortSpec>, active: set<HostPort>, suffix: PortSpec -> string, possible: string,
                          i: nat, j: nat)
    requires Assignment(ports, active, SeedsOf(possible, suffix)).Some?
    requires Clean(active, Assignment(ports, active, SeedsOf(possible, suffix)).value)
    requires i < j < |ports| && MayClash(ports[i], ports[j])
    ensures !AlwaysClean(ports, active, suffix)
  {
    var port, protocol := ports[j].fixed.value, ports[j].protocol;
    if ports[i].fixed.Some? {
      FixedIsHeld(ports, active, SeedsOf(possible, suffix), i);
      EarlierIsTaken(ports, active, SeedsOf(possible, suffix), i, j, HostPort(port, protocol));
      TakenFixedClashes(ports, active, SeedsOf(possible, suffix), j);
    } else {
      OffsetIsReached(suffix(ports[i]), port - DYNAMIC_HOST_PORT_MIN);
      var id :| SeedOffset(id + suffix(ports[i])) == port - DYNAMIC_HOST_PORT_MIN;
      var seeds := SeedsOf(id, suffix);
      OthersSucceedToo(ports, active, SeedsOf(possible, suffix), seeds, protocol);
      SearchTakes(ports, active, seeds, port, i);
      EarlierIsTaken(ports, active, seeds, i, j, HostPort(port, protocol));
      TakenFixedClashes(ports, active, seeds, j);
      assert !AssignedCleanly(ports, active, seeds);
    }
  }

  lemma FixedIsHeld(ports: seq<PortSpec>, active: set<HostPort>, seeds: Seeds, i: nat)
    requires i < |ports| && ports[i].isPublic && ports[i].fixed.Some?
    ensures HostPort(ports[i].fixed.value, ports[i].protocol) in Held(Given(ports[..i + 1], active, seeds))
  {
    assert ports[..i + 1] == ports[..i] + [ports[i]];
    GivenSnoc(ports[..i], ports[i], active, seeds);
    HeldSnoc(Given(ports[..i], active, seeds),
        Assigned(ports[i].containerPort, HostPort(ports[i].fixed.value, ports[i].protocol)));
  }

  lemma EarlierIsTaken(ports: seq<PortSpec>, active: set<HostPort>, seeds: Seeds, i: nat, j: nat, h: HostPort)
    requires i < j < |ports| && h in active + Held(Given(ports[..i + 1], active, seeds))
    ensures h in active + Held(Given(ports[..j], active, seeds))
  {
    GivenGrows(ports[..j], active, seeds, i + 1);
    assert ports[..j][..i + 1] == ports[..i + 1];
    hide Given;
    if h !in active {
      var a :| a in Given(ports[..i + 1], active, seeds) && a.hostPort == h;
      assert a in Given(ports[..j], active, seeds);
    }
  }

  /**
   * Where an assignment succeeds for some workload id, it is distinct for all of them exactly when the ports are safe.
   */
  lemma DistinctIffSafe(ports: seq<PortSpec>, active: set<HostPort>, suffix: PortSpec -> string, possible: string)
    requires Assignment(ports, active, SeedsOf(possible, suffix)).Some?
    ensures AlwaysClean(ports, active, suffix) <==> Safe(ports, active)
  {
    hide Safe, Assignment;
    if Safe(ports, active) {
      forall id ensures AssignedCleanly(ports, active, SeedsOf(id, suffix)) {
        SafeAssignsCleanly(ports, active, SeedsOf(id, suffix));
      }
    } else {
      UnsafeClashes(ports, active, suffix, possible);
    }
  }

  lemma SafeAssignsCleanly(ports: seq<PortSpec>, active: set<HostPort>, seeds: Seeds)
    requires Safe(ports, active)
    ensures AssignedCleanly(ports, active, seeds)
  {
    SafeIsClean(ports, active, seeds);
  }

  // ---------------------------------------------------------------------------------------------------------------
  // The ports of the start command.

  function FindPlaced(placed: seq<Assigned>, containerPort: int, protocol: Protocol): Option<Assigned> {
    if placed == [] then None
    else if placed[0].containerPort == containerPort && placed[0].hostPort.protocol == protocol then Some(placed[0])
    else FindPlaced(placed[1..], containerPort, protocol)
  }

  /** The rewriting of one configured port: the assigned host port replaces the requested and the external one. */
  function CommandPort(port: PortSpec, placed: seq<Assigned>): PortSpec {
    var found := FindPlaced(placed, port.containerPort, port.protocol);
    if found.Some? then port.(fixed := Some(found.value.hostPort.port)) else port
  }

  function CommandPorts(ports: seq<PortSpec>, placed: seq<Assigned>): seq<PortSpec> {
    seq(|ports|, i requires 0 <= i < |ports| => CommandPort(ports[i], placed))
  }

  /** No container port is configured twice for one protocol; the reservations' unique index asks the same. */
  ghost predicate ContainerPortsDiffer(ports: seq<PortSpec>) {
    forall i, j :: 0 <= i < j < |ports| ==>
        ports[i].containerPort != ports[j].containerPort || ports[i].protocol != ports[j].protocol
  }

  lemma {:induction false} FindsOnlyMatch(placed: seq<Assigned>, k: nat)
    requires k < |placed|
    requires forall j :: 0 <= j < |placed| && j != k ==>
               placed[j].containerPort != placed[k].containerPort
                   || placed[j].hostPort.protocol != placed[k].hostPort.protocol
    ensures FindPlaced(placed, placed[k].containerPort, placed[k].hostPort.protocol) == Some(placed[k])
  {
    if k > 0 {
      FindsOnlyMatch(placed[1..], k - 1);
    }
  }

  lemma {:induction false} FindsNothing(placed: seq<Assigned>, containerPort: int, protocol: Protocol)
    requires forall j :: 0 <= j < |placed| ==>
              placed[j].containerPort != containerPort || placed[j].hostPort.protocol != protocol
    ensures FindPlaced(placed, containerPort, protocol) == None
  {
    if placed != [] {
      FindsNothing(placed[1..], containerPort, protocol);
    }
  }

  /** Where the `i`-th configured port stands among the public ones. */
  function PublicIndex(ports: seq<PortSpec>, i: nat): (k: nat)
    requires i < |ports| && ports[i].isPublic
    ensures k < |PublicPorts(ports)| && PublicPorts(ports)[k] == ports[i]
  {
    if i == |ports| - 1 then |PublicPorts(ports[..|ports| - 1])| else PublicIndex(ports[..|ports| - 1], i)
  }

  lemma {:induction false} PublicPortsDiffer(ports: seq<PortSpec>)
    requires ContainerPortsDiffer(ports)
    ensures ContainerPortsDiffer(PublicPorts(ports))
  {
    if ports != [] {
      var init, last := ports[..|ports| - 1], ports[|ports| - 1];
      PublicPortsDiffer(init);
      forall p | p in init ensures p.containerPort != last.containerPort || p.protocol != last.protocol {
        var k :| 0 <= k < |init| && init[k] == p;
        assert ports[k] == p;
      }
      assert forall k :: 0 <= k < |PublicPorts(init)| ==> PublicPorts(init)[k] in init;
    }
  }

  /**
   * The command carries exactly the reserved ports: each public port its own reservation, each private port what it
   * was configured with, and the public host ports are the reserved ones.
   */
  lemma CommandCarriesReservations(ports: seq<PortSpec>, placed: seq<Assigned>)
    requires ContainerPortsDiffer(ports) && Answers(PublicPorts(ports), placed)
    ensures |CommandPorts(ports, placed)| == |ports|
    ensures forall i :: 0 <= i < |ports| ==>
              CommandPorts(ports, placed)[i]
              == if ports[i].isPublic then ports[i].(fixed := Some(placed[PublicIndex(ports, i)].hostPort.port))
                  else ports[i]
  {
    PublicPortsDiffer(ports);
    var publicPorts := PublicPorts(ports);
    forall i | 0 <= i < |ports|
      ensures CommandPorts(ports, placed)[i]
           == if ports[i].isPublic then ports[i].(fixed := Some(placed[PublicIndex(ports, i)].hostPort.port))
               else ports[i]
    {
      if ports[i].isPublic {
        FindsOnlyMatch(placed, PublicIndex(ports, i));
      } else {
        forall j | 0 <= j < |placed|
          ensures placed[j].containerPort != ports[i].containerPort || placed[j].hostPort.protocol != ports[i].protocol
        {
          assert publicPorts[j] in publicPorts;
          var k :| 0 <= k < |ports| && ports[k] == publicPorts[j];
        }
        FindsNothing(placed, ports[i].containerPort, ports[i].protocol);
      }
    }
  }
}
