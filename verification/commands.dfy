/** Agent commands: delivery leases, results and timeouts. */
module Commands {
  import opened Wrappers
  import Scheduler

  const DELIVERY_LEASE_MS := 300_000

  type NodeId = Scheduler.NodeId

  datatype CommandId = CommandId(id: int)

  datatype Kind = Start | Stop | Delete | Other

  datatype Status = Pending | Delivered | Succeeded | Failed

  datatype Command = Command(
    id: CommandId, node: NodeId, kind: Kind, status: Status, createdAt: int, deadlineAt: Option<int>,
        deliveredAt: Option<int>, attempts: nat)

  /** A result as an agent reports it; `hasRuntimeId` says whether its data names the runtime. */
  datatype Result = Result(command: CommandId, succeeded: bool, hasRuntimeId: bool)

  predicate Lifecycle(kind: Kind) { kind != Other }

  predicate Terminal(status: Status) { status == Succeeded || status == Failed }

  /** Pending, or delivered so long ago that the delivery lease has run out. */
  predicate Deliverable(c: Command, node: NodeId, now: int) {
    && c.node == node
    && (c.status == Pending
        || (c.status == Delivered && (c.deliveredAt.None? || c.deliveredAt.value < now - DELIVERY_LEASE_MS)))
  }

  function Deliver(c: Command, now: int): Command {
    c.(status := Delivered, deliveredAt := Some(now), attempts := c.attempts + 1)
  }

  /** A start that claims success without a runtime id is a failure. */
  function Settle(c: Command, succeeded: bool, hasRuntimeId: bool): Command {
    c.(status := if succeeded && (c.kind == Start ==> hasRuntimeId) then Succeeded else Failed)
  }

  predicate Expired(c: Command, now: int) {
    (c.status == Pending || c.status == Delivered) && Lifecycle(c.kind) && c.deadlineAt.Some?
        && c.deadlineAt.value < now
  }

  // ---------------------------------------------------------------------------------------------------------------
  // The table.

  predicate UniqueIds(rows: seq<Command>) {
    forall i, j :: 0 <= i < j < |rows| ==> rows[i].id != rows[j].id
  }

  /** The deliverable rows as a poll hands them out. */
  function HandedOut(rows: seq<Command>, node: NodeId, now: int): seq<Command> {
    if rows == [] then []
    else
      var init, last := rows[..|rows| - 1], rows[|rows| - 1];
      HandedOut(init, node, now) + if Deliverable(last, node, now) then [Deliver(last, now)] else []
  }

  class CommandTable {
    var rows: seq<Command>

    constructor ()
      ensures rows == []
    {
      rows := [];
    }

    /** Leases every deliverable command of the node to this poll. */
    method Poll(node: NodeId, now: int) returns (handed: seq<Command>)
      modifies this
      ensures |rows| == |old(rows)|
      ensures forall i :: 0 <= i < |rows| ==>
                rows[i] == if Deliverable(old(rows)[i], node, now) then Deliver(old(rows)[i], now) else old(rows)[i]
      ensures forall i :: 0 <= i < |rows| ==>
                var c := old(rows)[i];
                var stale := c.deliveredAt.None? || now - c.deliveredAt.value > 300_000;
                rows[i] == if c.node == node && (c.status == Pending || (c.status == Delivered && stale))
                           then c.(status := Delivered, deliveredAt := Some(now), attempts := c.attempts + 1) else c
      ensures handed == HandedOut(old(rows), node, now)
    {
      handed := [];
      ghost var was := rows;
      for i := 0 to |rows|
        invariant |rows| == |was| && forall k :: i <= k < |rows| ==> rows[k] == was[k]
        invariant forall k :: 0 <= k < i ==>
                  rows[k] == if Deliverable(was[k], node, now) then Deliver(was[k], now) else was[k]
        invariant handed == HandedOut(was[..i], node, now)
      {
        assert was[..i + 1][..i] == was[..i];
        if Deliverable(rows[i], node, now) {
          rows := rows[i := Deliver(rows[i], now)];
          handed := handed + [rows[i]];
        }
      }
      assert was[..|was|] == was;
    }

    /** Applies a result to a delivered command of the node; any other is refused. */
    method ApplyResult(node: NodeId, result: Result) returns (accepted: bool)
      requires UniqueIds(rows)
      modifies this
      ensures accepted <==> exists c ::
                c in old(rows) && c.id == result.command && c.node == node && c.status == Delivered
      ensures |rows| == |old(rows)|
      ensures forall i :: 0 <= i < |rows| ==>
                rows[i] == if old(rows)[i].id == result.command && old(rows)[i].node == node
                    && old(rows)[i].status == Delivered
                           then Settle(old(rows)[i], result.succeeded, result.hasRuntimeId) else old(rows)[i]
      ensures forall i :: 0 <= i < |rows| ==>
                var c := old(rows)[i];
                rows[i] == if c.id != result.command || c.node != node || c.status != Delivered then c
                           else c.(status := if result.succeeded && (c.kind != Start || result.hasRuntimeId)
                                             then Succeeded else Failed)
    {
      for i := 0 to |rows|
        invariant rows == old(rows)
        invariant forall k :: 0 <= k < i ==>
                  !(rows[k].id == result.command && rows[k].node == node && rows[k].status == Delivered)
      {
        if rows[i].id == result.command && rows[i].node == node && rows[i].status == Delivered {
          assert rows[i] in old(rows);
          rows := rows[i := Settle(rows[i], result.succeeded, result.hasRuntimeId)];
          return true;
        }
      }
      accepted := false;
    }

    /** Fails every lifecycle command whose deadline has passed. */
    method TimeOut(now: int)
      modifies this
      ensures |rows| == |old(rows)|
      ensures forall i :: 0 <= i < |rows| ==>
                rows[i] == if Expired(old(rows)[i], now) then old(rows)[i].(status := Failed) else old(rows)[i]
      ensures forall i :: 0 <= i < |rows| ==>
                var c := old(rows)[i];
                rows[i] == if (c.status == Pending || c.status == Delivered) && c.kind != Other
                              && c.deadlineAt.Some? && c.deadlineAt.value < now
                           then c.(status := Failed) else c
    {
      ghost var was := rows;
      for i := 0 to |rows|
        invariant |rows| == |was| && forall k :: i <= k < |rows| ==> rows[k] == was[k]
        invariant forall k :: 0 <= k < i ==>
                  rows[k] == if Expired(was[k], now) then was[k].(status := Failed) else was[k]
      {
        if Expired(rows[i], now) {
          rows := rows[i := rows[i].(status := Failed)];
        }
      }
    }
  }

  /** Every command handed out was deliverable, and the poll hands out each deliverable one. */
  lemma {:induction false} HandsOutExactlyDeliverable(rows: seq<Command>, node: NodeId, now: int)
    ensures forall d :: d in HandedOut(rows, node, now) <==> exists c ::
              c in rows && Deliverable(c, node, now) && d == Deliver(c, now)
  {
    if rows != [] {
      var init, last := rows[..|rows| - 1], rows[|rows| - 1];
      HandsOutExactlyDeliverable(init, node, now);
      assert rows == init + [last];
    }
  }

  // ---------------------------------------------------------------------------------------------------------------
  // The life of one command. A poll or a tick reads its clock before its statements run, so stamps may lag.

  datatype Life = Life(clock: int, command: Command, deliveries: seq<int>, outcomes: seq<Status>)

  datatype Event =
    | Tick(to: int) | Delivery(node: NodeId, stamp: int)
    | Reported(node: NodeId, succeeded: bool, hasRuntimeId: bool) | TimedOut(stamp: int)

  predicate Allowed(s: Life, event: Event) {
    match event
    case Tick(to) => to >= s.clock
    case Delivery(node, stamp) => stamp <= s.clock && Deliverable(s.command, node, stamp)
    case Reported(node, _, _) => s.command.node == node && s.command.status == Delivered
    case TimedOut(stamp) => stamp <= s.clock && Expired(s.command, stamp)
  }

  function After(s: Life, event: Event): Life {
    match event
    case Tick(to) => s.(clock := to)
    case Delivery(_, stamp) => s.(command := Deliver(s.command, stamp), deliveries := s.deliveries + [stamp])
    case Reported(_, succeeded, hasRuntimeId) =>
      var settled := Settle(s.command, succeeded, hasRuntimeId);
      s.(command := settled, outcomes := s.outcomes + [settled.status])
    case TimedOut(_) => s.(command := s.command.(status := Failed), outcomes := s.outcomes + [Failed])
  }

  predicate Created(s: Life) {
    && s.command.status == Pending && s.command.attempts == 0 && s.command.deliveredAt == None
        && s.command.createdAt <= s.clock
    && s.deliveries == [] && s.outcomes == []
  }

  predicate Run(states: seq<Life>, events: seq<Event>) {
    && |states| == |events| + 1 && Created(states[0])
    && forall i :: 0 <= i < |events| ==> Allowed(states[i], events[i]) && states[i + 1] == After(states[i], events[i])
  }

  predicate LeasesApart(deliveries: seq<int>) {
    forall i :: 0 <= i < |deliveries| - 1 ==> deliveries[i + 1] > deliveries[i] + DELIVERY_LEASE_MS
  }

  ghost predicate Inv(s: Life) {
    && s.command.createdAt <= s.clock
    && s.command.attempts == |s.deliveries|
    && s.command.deliveredAt == (if s.deliveries == [] then None else Some(s.deliveries[|s.deliveries| - 1]))
    && (s.deliveries != [] ==> s.deliveries[|s.deliveries| - 1] <= s.clock)
    && (s.command.status == Pending ==> s.deliveries == [])
    && (s.command.status == Delivered ==> s.deliveries != [])
    && LeasesApart(s.deliveries)
    && s.outcomes == if Terminal(s.command.status) then [s.command.status] else []
  }

  /** What no event changes. */
  predicate SameOrder(a: Command, b: Command) {
    a.id == b.id && a.node == b.node && a.kind == b.kind && a.createdAt == b.createdAt && a.deadlineAt == b.deadlineAt
  }

  lemma StepKeepsInv(s: Life, event: Event)
    requires Inv(s) && Allowed(s, event)
    ensures Inv(After(s, event)) && SameOrder(s.command, After(s, event).command)
    ensures s.deliveries <= After(s, event).deliveries && s.clock <= After(s, event).clock
    ensures Terminal(s.command.status) ==>
              After(s, event).command == s.command && After(s, event).outcomes == s.outcomes
  {
  }

  lemma {:induction false} RunKeepsInv(states: seq<Life>, events: seq<Event>, i: nat)
    requires Run(states, events) && i < |states|
    ensures Inv(states[i]) && SameOrder(states[0].command, states[i].command)
  {
    hide Allowed, After;
    if i > 0 {
      RunKeepsInv(states, events, i - 1);
      StepKeepsInv(states[i - 1], events[i - 1]);
    }
  }

  lemma {:induction false} DeliveriesSpread(deliveries: seq<int>, i: nat, j: nat)
    requires LeasesApart(deliveries) && i <= j < |deliveries|
    ensures deliveries[j] >= deliveries[i] + (j - i) * (DELIVERY_LEASE_MS + 1)
  {
    if i < j {
      DeliveriesSpread(deliveries, i, j - 1);
      assert deliveries[j - 1 + 1] > deliveries[j - 1] + DELIVERY_LEASE_MS;
    }
  }

  /** Any two deliveries are more than five minutes apart, so at most one fits into each lease since the first. */
  lemma DeliveriesAreLeased(states: seq<Life>, events: seq<Event>, n: nat)
    requires Run(states, events) && n < |states|
    ensures var s := states[n];
            && s.command.attempts == |s.deliveries|
            && (forall i, j :: 0 <= i < j < |s.deliveries| ==> s.deliveries[j] > s.deliveries[i] + DELIVERY_LEASE_MS)
            && (s.deliveries != [] ==> s.command.attempts <= 1 + (s.clock - s.deliveries[0]) / DELIVERY_LEASE_MS)
  {
    RunKeepsInv(states, events, n);
    var s := states[n];
    forall i, j | 0 <= i < j < |s.deliveries| ensures s.deliveries[j] > s.deliveries[i] + DELIVERY_LEASE_MS {
      DeliveriesSpread(s.deliveries, i, j);
    }
    if s.deliveries != [] {
      DeliveriesSpread(s.deliveries, 0, |s.deliveries| - 1);
      QuotientAtLeast(s.clock - s.deliveries[0], |s.deliveries| - 1);
    }
  }

  lemma QuotientAtLeast(elapsed: int, n: nat)
    requires elapsed >= n * DELIVERY_LEASE_MS
    ensures elapsed / DELIVERY_LEASE_MS >= n
  {
  }

  predicate WithinAge(s: Life) { s.command.attempts <= 1 + (s.clock - s.command.createdAt) / DELIVERY_LEASE_MS }

  /**
   * Counted from the creation, the bound holds when the first poll's clock lagged the creation by at most a
   * millisecond.
   */
  lemma AttemptsWithinAge(states: seq<Life>, events: seq<Event>, n: nat)
    requires Run(states, events) && n < |states|
    requires states[n].deliveries != [] ==> states[n].deliveries[0] >= states[n].command.createdAt - 1
    ensures WithinAge(states[n])
  {
    RunKeepsInv(states, events, n);
    var s := states[n];
    if |s.deliveries| > 1 {
      DeliveriesSpread(s.deliveries, 0, |s.deliveries| - 1);
      QuotientAtLeast(s.clock - s.command.createdAt, |s.deliveries| - 1);
    }
  }

  /** A first poll that read its clock any earlier has a run that breaks that bound. */
  lemma StalePollBreaksAge(c: Command, first: int) returns (states: seq<Life>, events: seq<Event>)
    requires Created(Life(c.createdAt, c, [], [])) && first < c.createdAt - 1
    ensures Run(states, events) && states[0].command == c && states[0].clock == c.createdAt
    ensures !WithinAge(states[|events|]) && [first] <= states[|events|].deliveries
  {
    var s0 := Life(c.createdAt, c, [], []);
    var second := first + DELIVERY_LEASE_MS + 1;
    var later := if second > c.createdAt then second else c.createdAt;
    var e0, e1, e2 := Delivery(c.node, first), Tick(later), Delivery(c.node, second);
    var s1 := After(s0, e0);
    var s2 := After(s1, e1);
    var s3 := After(s2, e2);
    states, events := [s0, s1, s2, s3], [e0, e1, e2];
    assert (s3.clock - c.createdAt) / DELIVERY_LEASE_MS == 0;
  }

  /** Later deliveries of a command first handed out at `first` all come after its deadline, in this run. */
  ghost predicate LateFrom(states: seq<Life>, c: Command, first: int) {
    c.deadlineAt.Some? ==>
      forall n, i :: 0 <= n < |states| && 0 < i < |states[n].deliveries| && states[n].deliveries[0] == first ==>
        states[n].deliveries[i] > c.deadlineAt.value
  }

  /** No run hands the command out again by its deadline. */
  ghost predicate RedeliversOnlyLate(c: Command, first: int) {
    forall states: seq<Life>, events: seq<Event> :: Run(states, events) && states[0].command == c ==>
        LateFrom(states, c, first)
  }

  /**
   * A command that is first handed out at `first` is handed out again only after its deadline exactly when that lies
   * at most one delivery lease after `first`.
   */
  lemma RedeliveryIsLateIff(c: Command, first: int)
    requires c.status == Pending && c.attempts == 0 && c.deliveredAt == None && c.deadlineAt.Some?
    ensures RedeliversOnlyLate(c, first) <==> c.deadlineAt.value <= first + DELIVERY_LEASE_MS
  {
    if c.deadlineAt.value <= first + DELIVERY_LEASE_MS {
      forall states: seq<Life>, events: seq<Event> | Run(states, events)
          && states[0].command == c ensures LateFrom(states, c, first) {
        RunIsLate(states, events, c, first);
      }
    } else {
      var states, events := EarlyRedelivery(c, first);
      assert states[3].deliveries[0] == first && states[3].deliveries[1] <= c.deadlineAt.value;
    }
  }

  lemma RunIsLate(states: seq<Life>, events: seq<Event>, c: Command, first: int)
    requires Run(states, events) && states[0].command == c
    requires c.deadlineAt.Some? && c.deadlineAt.value <= first + DELIVERY_LEASE_MS
    ensures LateFrom(states, c, first)
  {
    forall n, i | 0 <= n < |states| && 0 < i < |states[n].deliveries| && states[n].deliveries[0] == first
      ensures states[n].deliveries[i] > c.deadlineAt.value
    {
      RunKeepsInv(states, events, n);
      DeliveriesSpread(states[n].deliveries, 0, i);
    }
  }

  /** Two polls hand the command out at `first` and, as soon as the lease has run out, again by the deadline. */
  lemma EarlyRedelivery(c: Command, first: int) returns (states: seq<Life>, events: seq<Event>)
    requires c.status == Pending && c.attempts == 0 && c.deliveredAt == None
    requires c.deadlineAt.Some? && first + DELIVERY_LEASE_MS < c.deadlineAt.value
    ensures Run(states, events) && states[0].command == c && |states| == 4
    ensures states[3].deliveries == [first, first + DELIVERY_LEASE_MS + 1]
  {
    var second := first + DELIVERY_LEASE_MS + 1;
    var s0 := Life(if c.createdAt > first then c.createdAt else first, c, [], []);
    var e0, e2 := Delivery(c.node, first), Delivery(c.node, second);
    var s1 := After(s0, e0);
    var e1 := Tick(if s0.clock > second then s0.clock else second);
    var s2 := After(s1, e1);
    states, events := [s0, s1, s2, After(s2, e2)], [e0, e1, e2];
  }

  /**
   * So a redelivered lifecycle command whose first poll did not lag by more than three minutes only waits for its
   * timeout.
   */
  lemma RedeliveredIsExpired(states: seq<Life>, events: seq<Event>, n: nat, now: int)
    requires Run(states, events) && n < |states| && |states[n].deliveries| > 1 && now >= states[n].deliveries[1]
    requires var c := states[0].command;
             Lifecycle(c.kind) && c.deadlineAt.Some?
                 && c.deadlineAt.value <= states[n].deliveries[0] + DELIVERY_LEASE_MS
    ensures Terminal(states[n].command.status) || Expired(states[n].command, now)
  {
    RunKeepsInv(states, events, n);
    RunIsLate(states, events, states[0].command, states[n].deliveries[0]);
  }

  /** At most one result or timeout is ever applied; after it nothing about the command changes. */
  lemma {:induction false} OneOutcome(states: seq<Life>, events: seq<Event>, i: nat, j: nat)
    requires Run(states, events) && i <= j < |states|
    ensures |states[j].outcomes| <= 1
    ensures Terminal(states[i].command.status) ==>
              states[j].command == states[i].command && states[j].outcomes == [states[i].command.status]
  {
    hide Allowed, After;
    RunKeepsInv(states, events, j);
    if i < j {
      OneOutcome(states, events, i, j - 1);
      RunKeepsInv(states, events, j - 1);
      StepKeepsInv(states[j - 1], events[j - 1]);
    }
  }

  /**
   * A result is only ever applied to a command that was delivered, a timeout only to a lifecycle command past its
   * deadline.
   */
  lemma OutcomeHasCause(states: seq<Life>, events: seq<Event>, i: nat)
    requires Run(states, events) && i < |events|
    requires !Terminal(states[i].command.status) && Terminal(states[i + 1].command.status)
    ensures states[i].deliveries != []
              || (Lifecycle(states[0].command.kind) && states[0].command.deadlineAt.Some?
                  && states[0].command.deadlineAt.value < states[i].clock)
    ensures states[i + 1].command.status == Succeeded ==>
              states[i].deliveries != []
                  && (states[0].command.kind == Start ==> events[i].Reported? && events[i].hasRuntimeId)
  {
    RunKeepsInv(states, events, i);
  }
}
