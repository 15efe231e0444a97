/** The fixed-window rate limiter and its stores. */
module RateLimit {
  type Key = string

  datatype Entry = Entry(count: nat, resetAt: int)

  type Hits = map<Key, Entry>

  /** The entry an increment leaves for its key, and returns. */
  function Counted(hits: Hits, key: Key, windowMs: int, now: int): Entry {
    if key !in hits || hits[key].resetAt <= now then Entry(1, now + windowMs)
    else Entry(hits[key].count + 1, hits[key].resetAt)
  }

  function Cleaned(hits: Hits, now: int): Hits {
    map key | key in hits && hits[key].resetAt > now :: hits[key]
  }

  class MemoryStore {
    var hits: Hits

    constructor ()
      ensures hits == map[]
    {
      hits := map[];
    }

    method Increment(key: Key, windowMs: int, now: int) returns (entry: Entry)
      modifies this
      ensures if key in old(hits) && now < old(hits)[key].resetAt
              then entry.count == old(hits)[key].count + 1 && entry.resetAt == old(hits)[key].resetAt
              else entry.count == 1 && entry.resetAt == now + windowMs
      ensures entry == Counted(old(hits), key, windowMs, now)
      ensures hits == old(hits)[key := entry]
    {
      if key !in hits || hits[key].resetAt <= now {
        entry := Entry(1, now + windowMs);
        hits := hits[key := entry];
        return;
      }
      hits := hits[key := hits[key].(count := hits[key].count + 1)];
      entry := hits[key];
    }

    method Reset(key: Key)
      modifies this
      ensures hits == old(hits) - {key}
    {
      hits := hits - {key};
    }

    method Cleanup(now: int)
      modifies this
      ensures forall key :: key in hits <==> key in old(hits) && now < old(hits)[key].resetAt
      ensures forall key :: key in hits ==> hits[key] == old(hits)[key]
      ensures hits == Cleaned(old(hits), now)
    {
      var keys := hits.Keys;
      while keys != {}
        invariant keys <= old(hits).Keys
        invariant forall key :: key in hits <==> key in old(hits) && (key in keys || old(hits)[key].resetAt > now)
        invariant forall key :: key in hits ==> hits[key] == old(hits)[key]
        decreases |keys|
      {
        var key :| key in keys;
        if hits[key].resetAt <= now {
          hits := hits - {key};
        }
        keys := keys - {key};
      }
    }
  }

  // ---------------------------------------------------------------------------------------------------------------
  // The PostgreSQL store: one upsert, with a case for each column.

  function Upserted(rows: Hits, key: Key, windowMs: int, now: int): Entry {
    if key !in rows then Entry(1, now + windowMs)
    else
      var count := if rows[key].resetAt <= now then 1 else rows[key].count + 1;
      var resetAt := if rows[key].resetAt <= now then now + windowMs else rows[key].resetAt;
      Entry(count, resetAt)
  }

  class PostgresStore {
    var rows: Hits

    constructor ()
      ensures rows == map[]
    {
      rows := map[];
    }

    method Increment(key: Key, windowMs: int, now: int) returns (entry: Entry)
      modifies this
      ensures if key in old(rows) && now < old(rows)[key].resetAt
              then entry.count == old(rows)[key].count + 1 && entry.resetAt == old(rows)[key].resetAt
              else entry.count == 1 && entry.resetAt == now + windowMs
      ensures entry == Upserted(old(rows), key, windowMs, now)
      ensures rows == old(rows)[key := entry]
    {
      if key !in rows {
        entry := Entry(1, now + windowMs);
      } else {
        var expired := rows[key].resetAt <= now;
        entry := Entry(if expired then 1 else rows[key].count + 1, if expired then now + windowMs
            else rows[key].resetAt);
      }
      rows := rows[key := entry];
    }

    method CleanupExpired(now: int)
      modifies this
      ensures forall key :: key in rows <==> key in old(rows) && now < old(rows)[key].resetAt
      ensures forall key :: key in rows ==> rows[key] == old(rows)[key]
      ensures rows == Cleaned(old(rows), now)
    {
      rows := map key | key in rows && !(rows[key].resetAt <= now) :: rows[key];
    }
  }

  // ---------------------------------------------------------------------------------------------------------------
  // Runs of a store.

  datatype Op = Increment(key: Key, windowMs: int, at: int) | Reset(key: Key, at: int) | Cleanup(at: int)

  /** What an increment answered. */
  datatype Served = Served(key: Key, at: int, entry: Entry)

  predicate TimeOrdered(ops: seq<Op>) {
    forall i, j :: 0 <= i < j < |ops| ==> ops[i].at <= ops[j].at
  }

  function HitsAfter(ops: seq<Op>): Hits {
    if ops == [] then map[]
    else
      var hits, op := HitsAfter(ops[..|ops| - 1]), ops[|ops| - 1];
      match op
      case Increment(key, windowMs, at) => hits[key := Counted(hits, key, windowMs, at)]
      case Reset(key, _) => hits - {key}
      case Cleanup(at) => Cleaned(hits, at)
  }

  function Log(ops: seq<Op>): seq<Served> {
    if ops == [] then []
    else
      var init, op := ops[..|ops| - 1], ops[|ops| - 1];
      Log(init) + match op
        case Increment(key, windowMs, at) => [Served(key, at, Counted(HitsAfter(init), key, windowMs, at))]
        case _ => []
  }

  /** The run without its cleanups. */
  function Calls(ops: seq<Op>): seq<Op> {
    if ops == [] then []
    else Calls(ops[..|ops| - 1]) + if ops[|ops| - 1].Cleanup? then [] else [ops[|ops| - 1]]
  }

  function RowsAfter(ops: seq<Op>): Hits {
    if ops == [] then map[]
    else
      var rows, op := RowsAfter(ops[..|ops| - 1]), ops[|ops| - 1];
      match op
      case Increment(key, windowMs, at) => rows[key := Upserted(rows, key, windowMs, at)]
      case Reset(key, _) => rows - {key}
      case Cleanup(at) => Cleaned(rows, at)
  }

  function PostgresLog(ops: seq<Op>): seq<Served> {
    if ops == [] then []
    else
      var init, op := ops[..|ops| - 1], ops[|ops| - 1];
      PostgresLog(init) + match op
        case Increment(key, windowMs, at) => [Served(key, at, Upserted(RowsAfter(init), key, windowMs, at))]
        case _ => []
  }

  /** From time `now` on the two maps cannot be told apart: they hold the same entries that have not expired. */
  ghost predicate SameLive(a: Hits, b: Hits, now: int) {
    forall key :: (key in a && a[key].resetAt > now) || (key in b && b[key].resetAt > now) ==>
        key in a && key in b && a[key] == b[key]
  }

  lemma SameLiveLater(a: Hits, b: Hits, now: int, later: int)
    requires SameLive(a, b, now) && now <= later
    ensures SameLive(a, b, later)
    ensures forall key, windowMs :: Counted(a, key, windowMs, later) == Counted(b, key, windowMs, later)
  {
  }

  function LastAt(ops: seq<Op>): int { if ops == [] then 0 else ops[|ops| - 1].at }

  lemma CallsSnoc(ops: seq<Op>, op: Op)
    ensures Calls(ops + [op]) == if op.Cleanup? then Calls(ops) else Calls(ops) + [op]
    ensures !op.Cleanup? ==> HitsAfter(Calls(ops + [op])) == HitsAfter(Calls(ops) + [op])
  {
    assert (ops + [op])[..|ops|] == ops;
  }

  /**
   * Cleanups are invisible: at the points where increments return, counts and reset times are those of a store that
   * never cleans.
   */
  lemma {:induction false} CleanupIsInvisible(ops: seq<Op>)
    requires TimeOrdered(ops)
    ensures Log(ops) == Log(Calls(ops))
    ensures ops != [] ==> SameLive(HitsAfter(ops), HitsAfter(Calls(ops)), LastAt(ops))
  {
    if ops != [] {
      var init, op := ops[..|ops| - 1], ops[|ops| - 1];
      CleanupIsInvisible(init);
      assert ops == init + [op];
      CallsSnoc(init, op);
      if init == [] {
        assert SameLive(HitsAfter(init), HitsAfter(Calls(init)), op.at);
      } else {
        SameLiveLater(HitsAfter(init), HitsAfter(Calls(init)), LastAt(init), op.at);
      }
      OneOp(HitsAfter(init), HitsAfter(Calls(init)), Calls(init), op);
    }
  }

  lemma OneOp(a: Hits, b: Hits, calls: seq<Op>, op: Op)
    requires SameLive(a, b, op.at) && b == HitsAfter(calls)
    ensures op.Increment? ==>
              SameLive(a[op.key := Counted(a, op.key, op.windowMs, op.at)], HitsAfter(calls + [op]), op.at)
                              && Log(calls + [op]) == Log(calls)
                                  + [Served(op.key, op.at, Counted(a, op.key, op.windowMs, op.at))]
    ensures op.Reset? ==> SameLive(a - {op.key}, HitsAfter(calls + [op]), op.at) && Log(calls + [op]) == Log(calls)
    ensures op.Cleanup? ==> SameLive(Cleaned(a, op.at), b, op.at)
  {
    assert (calls + [op])[..|calls|] == calls;
  }

  /** The upsert answers what the memory store answers, with or without cleanups on either side. */
  lemma {:induction false} PostgresAgrees(ops: seq<Op>)
    ensures RowsAfter(ops) == HitsAfter(ops) && PostgresLog(ops) == Log(ops)
  {
    if ops != [] {
      PostgresAgrees(ops[..|ops| - 1]);
    }
  }

  lemma StoresAgree(memoryOps: seq<Op>, postgresOps: seq<Op>)
    requires TimeOrdered(memoryOps) && TimeOrdered(postgresOps) && Calls(memoryOps) == Calls(postgresOps)
    ensures Log(memoryOps) == PostgresLog(postgresOps)
  {
    CleanupIsInvisible(memoryOps);
    CleanupIsInvisible(postgresOps);
    PostgresAgrees(postgresOps);
  }

  // ---------------------------------------------------------------------------------------------------------------
  // The limiter.

  datatype Answer = Admitted(remaining: nat) | Rejected

  function Decide(entry: Entry, max: nat): Answer {
    if entry.count > max then Rejected else Admitted(max - entry.count)
  }

  /** The n-th request of a window is admitted exactly while n is at most the maximum, and what remains is the rest. */
  lemma DecideByCount(entry: Entry, max: nat)
    ensures Decide(entry, max).Admitted? <==> entry.count <= max
    ensures entry.count <= max ==> Decide(entry, max).remaining + entry.count == max
  {
  }

  /** How many requests of a key were admitted between two times, both included. */
  function AdmittedBetween(log: seq<Served>, key: Key, max: nat, from: int, to: int): nat {
    if log == [] then 0
    else
      var last := log[|log| - 1];
      AdmittedBetween(log[..|log| - 1], key, max, from, to)
      + if last.key == key && from <= last.at <= to && Decide(last.entry, max).Admitted? then 1 else 0
  }

  /** The key belongs to one limiter, which counts it over one window length and never resets it. */
  predicate OneLimiter(ops: seq<Op>, key: Key, windowMs: int) {
    forall op :: op in ops && !op.Cleanup? && op.key == key ==> op.Increment? && op.windowMs == windowMs
  }

  function Least(a: nat, b: nat): nat { if a < b then a else b }

  function Less1(n: nat): nat { if n == 0 then 0 else n - 1 }

  /**
   * What windows before the last one can have admitted: their first request lies before an interval shorter than a
   * window.
   */
  function Earlier(max: nat, windowMs: int, from: int, to: int): nat { if to < from + windowMs then Less1(max)
                   else max }

  /** How many can have been admitted, by where the current window of the key starts. */
  ghost predicate WindowBound(hits: Hits, key: Key, windowMs: int, max: nat, from: int, to: int, admitted: nat) {
    if key !in hits then admitted == 0
    else
      var start, count := hits[key].resetAt - windowMs, hits[key].count;
      && count >= 1
      && (hits[key].resetAt <= from ==> admitted == 0)
      && if start < from then admitted <= Less1(Least(count, max))
         else if start == from then admitted <= Least(count, max)
         else if start <= to then admitted <= Earlier(max, windowMs, from, to) + Least(count, max)
         else admitted <= Earlier(max, windowMs, from, to) + max
  }

  lemma BoundStep(hits: Hits, key: Key, windowMs: int, max: nat, from: int, to: int, admitted: nat, at: int)
    requires windowMs >= 1 && from <= to <= from + windowMs
    requires WindowBound(hits, key, windowMs, max, from, to, admitted)
    requires key in hits ==> hits[key].resetAt - windowMs <= at
    ensures var entry := Counted(hits, key, windowMs, at);
            && entry.resetAt - windowMs <= at
            && WindowBound(hits[key := entry], key, windowMs, max, from, to,
                 admitted + if from <= at <= to && Decide(entry, max).Admitted? then 1 else 0)
  {
  }

  lemma {:induction false} BoundKept(ops: seq<Op>, key: Key, windowMs: int, max: nat, from: int, to: int)
    requires windowMs >= 1 && from <= to <= from + windowMs
    requires TimeOrdered(ops) && OneLimiter(ops, key, windowMs) && forall op :: op in ops ==> !op.Cleanup?
    ensures WindowBound(HitsAfter(ops), key, windowMs, max, from, to, AdmittedBetween(Log(ops), key, max, from, to))
    ensures key in HitsAfter(ops) ==> HitsAfter(ops)[key].resetAt - windowMs <= LastAt(ops)
  {
    hide WindowBound, Counted;
    if ops == [] {
      EmptyBound(key, windowMs, max, from, to);
    } else {
      var init, op := ops[..|ops| - 1], ops[|ops| - 1];
      BoundKept(init, key, windowMs, max, from, to);
      var hits, admitted := HitsAfter(init), AdmittedBetween(Log(init), key, max, from, to);
      if op.Increment? {
        var served := Served(op.key, op.at, Counted(hits, op.key, op.windowMs, op.at));
        assert (Log(init) + [served])[..|Log(init)|] == Log(init);
        if op.key == key {
          BoundStep(hits, key, windowMs, max, from, to, admitted, op.at);
        } else {
          OtherKeys(hits, HitsAfter(ops), key, windowMs, max, from, to, admitted);
        }
      } else {
        assert op in ops && op.key != key && Log(ops) == Log(init);
        OtherKeys(hits, HitsAfter(ops), key, windowMs, max, from, to, admitted);
      }
    }
  }

  lemma EmptyBound(key: Key, windowMs: int, max: nat, from: int, to: int)
    ensures WindowBound(map[], key, windowMs, max, from, to, 0)
  {
  }

  lemma OtherKeys(a: Hits, b: Hits, key: Key, windowMs: int, max: nat, from: int, to: int, admitted: nat)
    requires (key in a <==> key in b) && (key in a ==> a[key] == b[key])
    ensures WindowBound(a, key, windowMs, max, from, to, admitted) ==>
              WindowBound(b, key, windowMs, max, from, to, admitted)
  {
  }

  lemma {:induction false} CallsKeepOrder(ops: seq<Op>)
    requires TimeOrdered(ops)
    ensures TimeOrdered(Calls(ops)) && forall op :: op in Calls(ops) ==> op in ops && !op.Cleanup?
  {
    if ops != [] {
      CallsKeepOrder(ops[..|ops| - 1]);
      assert forall op :: op in ops[..|ops| - 1] ==> op.at <= ops[|ops| - 1].at;
      assert forall op :: op in Calls(ops[..|ops| - 1]) ==> op.at <= ops[|ops| - 1].at;
    }
  }

  /**
   * For one key under a clock that never goes back: an interval as long as the window admits at most 2 * max
   * requests, and one any shorter at most 2 * max - 1, whatever other keys do and whenever cleanups run.
   */
  lemma AtMostTwiceMax(ops: seq<Op>, key: Key, windowMs: int, max: nat, from: int, to: int)
    requires TimeOrdered(ops) && OneLimiter(ops, key, windowMs)
    requires windowMs >= 1 && from <= to <= from + windowMs
    ensures AdmittedBetween(Log(ops), key, max, from, to) <= 2 * max
    ensures to < from + windowMs && max > 0 ==> AdmittedBetween(Log(ops), key, max, from, to) <= 2 * max - 1
  {
    hide Log, AdmittedBetween, HitsAfter, Calls, TimeOrdered, SameLive;
    CleanupIsInvisible(ops);
    CallsKeepOrder(ops);
    BoundKept(Calls(ops), key, windowMs, max, from, to);
  }

  // ---------------------------------------------------------------------------------------------------------------
  // Both bounds are reached.

  function Repeat(key: Key, windowMs: int, at: int, n: nat): seq<Op> {
    seq(n, i requires 0 <= i < n => Increment(key, windowMs, at))
  }

  /** `n` further requests at one time within a window are counted one by one. */
  lemma {:induction false} RepeatCounts(before: seq<Op>, key: Key, windowMs: int, at: int, n: nat, max: nat,
                                        from: int, to: int)
    requires windowMs >= 1 && from <= at <= to
    requires key in HitsAfter(before) && HitsAfter(before)[key].resetAt > at && HitsAfter(before)[key].count + n <= max
    ensures var ops := before + Repeat(key, windowMs, at, n);
            && HitsAfter(ops) == HitsAfter(before)[key :=
                Entry(HitsAfter(before)[key].count + n, HitsAfter(before)[key].resetAt)]
            && AdmittedBetween(Log(ops), key, max, from, to) == AdmittedBetween(Log(before), key, max, from, to) + n
  {
    hide HitsAfter, Log, AdmittedBetween;
    var ops := before + Repeat(key, windowMs, at, n);
    if n == 0 {
      assert ops == before;
      assert HitsAfter(before)[key := HitsAfter(before)[key]] == HitsAfter(before);
    } else {
      RepeatCounts(before, key, windowMs, at, n - 1, max, from, to);
      var init := before + Repeat(key, windowMs, at, n - 1);
      assert ops == init + [Increment(key, windowMs, at)];
      NextServed(init, Increment(key, windowMs, at), max, from, to);
    }
  }

  lemma NextServed(init: seq<Op>, op: Op, max: nat, from: int, to: int)
    requires op.Increment?
    ensures var entry := Counted(HitsAfter(init), op.key, op.windowMs, op.at);
            && HitsAfter(init + [op]) == HitsAfter(init)[op.key := entry]
            && AdmittedBetween(Log(init + [op]), op.key, max, from, to)
               == AdmittedBetween(Log(init), op.key, max, from, to) + if from <= op.at <= to
                   && Decide(entry, max).Admitted? then 1 else 0
  {
    assert (init + [op])[..|init|] == init;
    var served := Served(op.key, op.at, Counted(HitsAfter(init), op.key, op.windowMs, op.at));
    assert (Log(init) + [served])[..|Log(init)|] == Log(init);
  }

  /** One request at time 0, `max - 1` more at `at` and `max` at the time the window ends. */
  function TwoWindows(key: Key, windowMs: int, at: int, max: nat): (ops: seq<Op>)
    requires max >= 1
  {
    [Increment(key, windowMs, 0)] + Repeat(key, windowMs, at, max - 1) + [Increment(key, windowMs, windowMs)]
        + Repeat(key, windowMs, windowMs, max - 1)
  }

  lemma TwoWindowsInOrder(key: Key, windowMs: int, at: int, max: nat)
    requires 0 <= at < windowMs && max >= 1
    ensures TimeOrdered(TwoWindows(key, windowMs, at, max))
              && OneLimiter(TwoWindows(key, windowMs, at, max), key, windowMs)
  {
    var ops := TwoWindows(key, windowMs, at, max);
    forall i | 0 <= i < |ops| ensures ops[i]
        == Increment(key, windowMs, if i == 0 then 0 else if i < max then at else windowMs) {
    }
  }

  /** All of them are admitted: both bounds are reached, for every window length and every maximum. */
  lemma TwoWindowsAdmit(key: Key, windowMs: int, at: int, max: nat, from: int)
    requires 0 <= at < windowMs && max >= 1 && from <= at
    ensures TimeOrdered(TwoWindows(key, windowMs, at, max))
              && OneLimiter(TwoWindows(key, windowMs, at, max), key, windowMs)
    ensures AdmittedBetween(Log(TwoWindows(key, windowMs, at, max)), key, max, from, windowMs)
              == (if from <= 0 then 2 * max else 2 * max - 1)
  {
    TwoWindowsInOrder(key, windowMs, at, max);
    var empty: seq<Op> := [];
    assert HitsAfter(empty) == map[] && AdmittedBetween(Log(empty), key, max, from, windowMs) == 0;
    hide HitsAfter, Log, AdmittedBetween, Repeat, TimeOrdered, OneLimiter;
    var first, second := Increment(key, windowMs, 0), Increment(key, windowMs, windowMs);
    NextServed(empty, first, max, from, windowMs);
    assert empty + [first] == [first];
    RepeatCounts([first], key, windowMs, at, max - 1, max, from, windowMs);
    var half := [first] + Repeat(key, windowMs, at, max - 1);
    NextServed(half, second, max, from, windowMs);
    RepeatCounts(half + [second], key, windowMs, windowMs, max - 1, max, from, windowMs);
  }
}
