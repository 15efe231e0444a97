/** What an aggregated bucket says, read off the columns of the samples. */
module MetricsLaws {
  import opened Wrappers
  import opened Metrics

  const RECEIVED := (s: Sample) => s.rx
  const SENT := (s: Sample) => s.tx
  const READ := (s: Sample) => s.read
  const WRITTEN := (s: Sample) => s.written

  /** The growth of a column along a series; after a fall the counter has started again from zero. */
  function Rise(series: seq<Sample>, column: Sample -> nat): nat {
    if |series| < 2 then 0
    else
      var before, after := column(series[|series| - 2]), column(series[|series| - 1]);
      Rise(series[..|series| - 1], column) + if after >= before then after - before else after
  }

  /** The seconds a series spans, at least one. */
  function Seconds(first: Sample, last: Sample): (seconds: real)
    ensures seconds >= 1.0
    ensures last.at - first.at >= 1000 ==> seconds * 1000.0 == (last.at - first.at) as real
  {
    if last.at - first.at >= 1000 then (last.at - first.at) as real / 1000.0 else 1.0
  }

  function PerSecond(series: seq<Sample>, column: Sample -> nat): real {
    if |series| < 2 then 0.0 else Rise(series, column) as real / Seconds(series[0], series[|series| - 1])
  }

  function SumOver(workloads: seq<int>, rate: int -> real): real {
    if workloads == [] then 0.0
    else SumOver(workloads[..|workloads| - 1], rate) + rate(workloads[|workloads| - 1])
  }

  /** A workload's samples of the bucket that starts at `key`, with the one before when there is only one. */
  function SeriesOf(samples: seq<Sample>, w: int, key: int, bucketMs: int): seq<Sample>
    requires bucketMs > 0
  {
    Borrowed(samples, Group(samples, w, key, bucketMs))
  }

  function WorkloadsIn(samples: seq<Sample>, key: int, bucketMs: int): seq<int>
    requires bucketMs > 0
  {
    WorkloadsOf(Filter(samples, InBucket(key, bucketMs)))
  }

  lemma {:induction false} RiseIsDelta(series: seq<Sample>, column: Sample -> nat, field: Field)
    requires forall s :: column(s) == Counter(s, field)
    ensures Rise(series, column) == Delta(series, field)
  {
    if |series| >= 2 {
      RiseIsDelta(series[..|series| - 1], column, field);
    }
  }

  lemma PerSecondIsRate(series: seq<Sample>, column: Sample -> nat, field: Field)
    requires forall s :: column(s) == Counter(s, field)
    ensures PerSecond(series, column) == SeriesRate(series, field)
  {
    RiseIsDelta(series, column, field);
    hide Rise, Delta;
    if |series| >= 2 {
      SecondsAreElapsed(series);
    }
  }

  lemma SecondsAreElapsed(series: seq<Sample>)
    requires |series| >= 1
    ensures Seconds(series[0], series[|series| - 1]) == Elapsed(series)
  {
  }

  lemma {:induction false} SumsAgree(samples: seq<Sample>, ws: seq<int>, key: int, bucketMs: int, column: Sample -> nat,
                                     field: Field, rate: int -> real)
    requires bucketMs > 0 && forall s :: column(s) == Counter(s, field)
    requires forall w :: w in ws ==> rate(w) == PerSecond(SeriesOf(samples, w, key, bucketMs), column)
    ensures SumOver(ws, rate) == SumRates(samples, ws, key, bucketMs, field)
  {
    if ws != [] {
      hide PerSecond, Borrowed, Group;
      var w := ws[|ws| - 1];
      assert w in ws;
      SumsAgree(samples, ws[..|ws| - 1], key, bucketMs, column, field, rate);
      PerSecondIsRate(SeriesOf(samples, w, key, bucketMs), column, field);
    }
  }

  /** Each column's rate of a bucket is the sum over its workloads of that column's growth per second. */
  lemma RatesAreColumnRates(samples: seq<Sample>, bucketMs: int, out: seq<Bucket>, i: nat,
                            rx: int -> real, tx: int -> real, read: int -> real, written: int -> real)
    requires bucketMs > 0 && Aggregated(samples, bucketMs, out) && i < |out|
    requires forall w :: w in WorkloadsIn(samples, out[i].timestamp, bucketMs) ==>
               var series := SeriesOf(samples, w, out[i].timestamp, bucketMs);
               && rx(w) == PerSecond(series, RECEIVED) && tx(w) == PerSecond(series, SENT)
               && read(w) == PerSecond(series, READ) && written(w) == PerSecond(series, WRITTEN)
    ensures var ws := WorkloadsIn(samples, out[i].timestamp, bucketMs);
            && out[i].rx == SumOver(ws, rx) && out[i].tx == SumOver(ws, tx)
            && out[i].read == SumOver(ws, read) && out[i].written == SumOver(ws, written)
  {
    hide PerSecond, SeriesOf, SumOver, SumRates;
    var key := out[i].timestamp;
    var ws := WorkloadsIn(samples, key, bucketMs);
    SumsAgree(samples, ws, key, bucketMs, RECEIVED, Rx, rx);
    SumsAgree(samples, ws, key, bucketMs, SENT, Tx, tx);
    SumsAgree(samples, ws, key, bucketMs, READ, DiskRead, read);
    SumsAgree(samples, ws, key, bucketMs, WRITTEN, DiskWrite, written);
    assert RateIn(out[i], Rx) == BucketRate(samples, key, bucketMs, Rx);
    assert RateIn(out[i], Tx) == BucketRate(samples, key, bucketMs, Tx);
    assert RateIn(out[i], DiskRead) == BucketRate(samples, key, bucketMs, DiskRead);
    assert RateIn(out[i], DiskWrite) == BucketRate(samples, key, bucketMs, DiskWrite);
  }

  // ---------------------------------------------------------------------------------------------------------------
  // In plain columns.

  predicate NeverFalls(series: seq<Sample>, column: Sample -> nat) {
    forall k :: 0 < k < |series| ==> column(series[k - 1]) <= column(series[k])
  }

  lemma {:induction false} RiseIsNet(series: seq<Sample>, column: Sample -> nat)
    requires |series| >= 1 && NeverFalls(series, column)
    ensures Rise(series, column) == column(series[|series| - 1]) - column(series[0])
  {
    if |series| >= 2 {
      RiseIsNet(series[..|series| - 1], column);
      assert column(series[|series| - 1 - 1]) <= column(series[|series| - 1]);
    }
  }

  /** What a workload with two samples or more, none of whose counters falls, contributes: the net change per second. */
  ghost predicate NetPerSecond(series: seq<Sample>, rx: real, tx: real, read: real, written: real)
    requires |series| >= 2
  {
    var a, b := series[0], series[|series| - 1];
    && rx == (b.rx - a.rx) as real / Seconds(a, b)
    && tx == (b.tx - a.tx) as real / Seconds(a, b)
    && read == (b.read - a.read) as real / Seconds(a, b)
    && written == (b.written - a.written) as real / Seconds(a, b)
  }

  /**
   * In a bucket where every workload has two samples and no counter falls, each rate is the sum of its net changes per
   * second.
   */
  lemma SteadyBucket(samples: seq<Sample>, bucketMs: int, out: seq<Bucket>, i: nat,
                     rx: int -> real, tx: int -> real, read: int -> real, written: int -> real)
    requires bucketMs > 0 && Aggregated(samples, bucketMs, out) && i < |out|
    requires forall w :: w in WorkloadsIn(samples, out[i].timestamp, bucketMs) ==>
               var series := Group(samples, w, out[i].timestamp, bucketMs);
               && |series| >= 2
               && (forall k :: 0 < k < |series| ==>
                     && series[k - 1].rx <= series[k].rx && series[k - 1].tx <= series[k].tx
                     && series[k - 1].read <= series[k].read && series[k - 1].written <= series[k].written)
               && NetPerSecond(series, rx(w), tx(w), read(w), written(w))
    ensures var ws := WorkloadsIn(samples, out[i].timestamp, bucketMs);
            && out[i].rx == SumOver(ws, rx) && out[i].tx == SumOver(ws, tx)
            && out[i].read == SumOver(ws, read) && out[i].written == SumOver(ws, written)
  {
    hide SumOver, Group, Aggregated, WorkloadsIn, Rise;
    var key := out[i].timestamp;
    forall w | w in WorkloadsIn(samples, key, bucketMs)
      ensures var series := SeriesOf(samples, w, key, bucketMs);
              && rx(w) == PerSecond(series, RECEIVED) && tx(w) == PerSecond(series, SENT)
              && read(w) == PerSecond(series, READ) && written(w) == PerSecond(series, WRITTEN)
    {
      var series := Group(samples, w, key, bucketMs);
      RiseIsNet(series, RECEIVED);
      RiseIsNet(series, SENT);
      RiseIsNet(series, READ);
      RiseIsNet(series, WRITTEN);
    }
    RatesAreColumnRates(samples, bucketMs, out, i, rx, tx, read, written);
  }

  /**
   * Two samples, in one bucket or one of them borrowed, contribute their difference per second, or after a fall the new
   * value.
   */
  lemma PairContributes(a: Sample, b: Sample)
    ensures PerSecond([a, b], RECEIVED) == (if b.rx >= a.rx then b.rx - a.rx else b.rx) as real / Seconds(a, b)
    ensures PerSecond([a, b], SENT) == (if b.tx >= a.tx then b.tx - a.tx else b.tx) as real / Seconds(a, b)
    ensures PerSecond([a, b], READ) == (if b.read >= a.read then b.read - a.read else b.read) as real / Seconds(a, b)
    ensures PerSecond([a, b], WRITTEN)
         == (if b.written >= a.written then b.written - a.written else b.written) as real / Seconds(a, b)
  {
    assert [a, b][..1] == [a];
    assert Rise([a], RECEIVED) == 0 && Rise([a], SENT) == 0 && Rise([a], READ) == 0 && Rise([a], WRITTEN) == 0;
  }

  lemma Multiples(a: int, b: int, m: int)
    requires a <= b && m > 0
    ensures a * m <= b * m
  {
  }

  lemma BucketStart(at: int, bucketMs: int, key: int)
    requires bucketMs > 0
    ensures at / bucketMs * bucketMs == key <==> key % bucketMs == 0 && key <= at < key + bucketMs
  {
    var q := at / bucketMs;
    assert at == q * bucketMs + at % bucketMs;
    if key % bucketMs == 0 && key <= at < key + bucketMs {
      var k := key / bucketMs;
      assert key == k * bucketMs;
      if q < k {
        Multiples(q + 1, k, bucketMs);
      } else if q > k {
        Multiples(k + 1, q, bucketMs);
      }
    }
    if q * bucketMs == key {
      MultipleHasNoRest(q, bucketMs);
    }
  }

  lemma MultipleHasNoRest(q: int, bucketMs: int)
    requires bucketMs > 0
    ensures q * bucketMs % bucketMs == 0
  {
    assert q * bucketMs == (q * bucketMs) / bucketMs * bucketMs + q * bucketMs % bucketMs;
    var r := q * bucketMs % bucketMs;
    var d := q - (q * bucketMs) / bucketMs;
    assert d * bucketMs == r;
    if d >= 1 {
      Multiples(1, d, bucketMs);
    } else if d <= -1 {
      Multiples(d, -1, bucketMs);
    }
  }

  /**
   * A bucket's timestamps and series in terms of time: whole multiples of the width, each covering one width from it
   * on.
   */
  lemma BucketsAreSpans(samples: seq<Sample>, bucketMs: int, out: seq<Bucket>, key: int, w: int, s: Sample)
    requires bucketMs > 0 && Aggregated(samples, bucketMs, out)
    ensures (exists i :: 0 <= i < |out| && out[i].timestamp == key)
       <==> key % bucketMs == 0 && exists t :: t in samples && key <= t.at < key + bucketMs
    ensures key % bucketMs == 0 ==>
              var inSpan := s in samples && s.workload == w && key <= s.at < key + bucketMs;
              s in Group(samples, w, key, bucketMs) <==> inSpan
  {
    forall t ensures BucketOf(t, bucketMs) == key <==> key % bucketMs == 0 && key <= t.at < key + bucketMs {
      BucketStart(t.at, bucketMs, key);
    }
    hide BucketOf;
    assert Occupied(samples, bucketMs, key) <==> exists i :: 0 <= i < |out| && out[i].timestamp == key;
  }
}
