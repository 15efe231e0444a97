/** Workload metrics: the aggregation of raw samples, and the SQL downsampling that may run before it. */
module Metrics {
  import opened Wrappers

  /** A workload id stands for its rank in the collation order; the four counters are read through `Counter`. */
  datatype Sample = Sample(workload: int, at: int, rx: nat, tx: nat, read: nat, written: nat)

  datatype Field = Rx | Tx | DiskRead | DiskWrite

  function Counter(s: Sample, field: Field): nat {
    match field
    case Rx => s.rx
    case Tx => s.tx
    case DiskRead => s.read
    case DiskWrite => s.written
  }

  /** Floor division: `Math.floor` here and `floor` in SQL. Dafny's `/` is the floor for a positive divisor. */
  function BucketOf(s: Sample, bucketMs: int): int
    requires bucketMs > 0
  {
    s.at / bucketMs * bucketMs
  }

  /** A query result: ordered by workload then time, with no two samples of a workload at one time. */
  ghost predicate Ordered(samples: seq<Sample>) {
    forall i, j :: 0 <= i < j < |samples| ==> Before(samples[i], samples[j])
  }

  predicate Before(a: Sample, b: Sample) {
    a.workload < b.workload || (a.workload == b.workload && a.at < b.at)
  }

  // ---------------------------------------------------------------------------------------------------------------
  // Reset-aware growth of one counter along a series.

  function Growth(before: nat, after: nat): nat {
    if after >= before then after - before else after
  }

  function Delta(series: seq<Sample>, field: Field): nat {
    if |series| < 2 then 0
    else
      var n := |series|;
      Delta(series[..n - 1], field) + Growth(Counter(series[n - 2], field), Counter(series[n - 1], field))
  }

  /** What each counter reset forgets: the value the counter had before it. */
  function ResetLoss(series: seq<Sample>, field: Field): nat {
    if |series| < 2 then 0
    else
      var before, after := Counter(series[|series| - 2], field), Counter(series[|series| - 1], field);
      ResetLoss(series[..|series| - 1], field) + (if after < before then before else 0)
  }

  /** The growth of a series is its net change plus everything its resets forgot. */
  lemma {:induction false} DeltaIsNetPlusLoss(series: seq<Sample>, field: Field)
    requires |series| >= 1
    ensures Delta(series, field)
         == Counter(series[|series| - 1], field) - Counter(series[0], field) + ResetLoss(series, field)
  {
    if |series| >= 2 {
      DeltaIsNetPlusLoss(series[..|series| - 1], field);
    }
  }

  /** The loss is at least the first value once the counter has fallen below it. */
  lemma {:induction false} LossCoversFall(series: seq<Sample>, field: Field)
    requires |series| >= 1 && Counter(series[|series| - 1], field) < Counter(series[0], field)
    ensures ResetLoss(series, field) >= Counter(series[0], field)
  {
    if |series| >= 2 {
      var init := series[..|series| - 1];
      if Counter(init[|init| - 1], field) < Counter(series[0], field) {
        LossCoversFall(init, field);
      }
    }
  }

  function Ends(series: seq<Sample>): seq<Sample> {
    if |series| <= 2 then series else [series[0], series[|series| - 1]]
  }

  /** What keeping only the ends of a series forgets of its growth. */
  function Forgotten(series: seq<Sample>, field: Field): int
    requires |series| >= 1
  {
    var first, last := Counter(series[0], field), Counter(series[|series| - 1], field);
    ResetLoss(series, field) - if last < first then first else 0
  }

  /** Keeping the ends loses exactly `Forgotten`, which is never negative and is nothing when no counter resets. */
  lemma EndsForgetResets(series: seq<Sample>, field: Field)
    requires |series| >= 1
    ensures Delta(series, field) == Delta(Ends(series), field) + Forgotten(series, field)
    ensures Forgotten(series, field) >= 0
    ensures ResetLoss(series, field) == 0 ==> Forgotten(series, field) == 0
  {
    DeltaIsNetPlusLoss(series, field);
    DeltaIsNetPlusLoss(Ends(series), field);
    if Counter(series[|series| - 1], field) < Counter(series[0], field) {
      LossCoversFall(series, field);
    }
    var ends := Ends(series);
    if |series| > 2 {
      assert ends[..1] == [series[0]];
      assert ResetLoss(ends[..1], field) == 0;
    }
    if |series| == 2 {
      assert ResetLoss(series[..1], field) == 0;
    }
  }

  ghost predicate NoReset(series: seq<Sample>, field: Field) {
    forall i :: 0 < i < |series| ==> Counter(series[i - 1], field) <= Counter(series[i], field)
  }

  lemma {:induction false} NoResetNoLoss(series: seq<Sample>, field: Field)
    requires NoReset(series, field)
    ensures ResetLoss(series, field) == 0
  {
    if |series| >= 2 {
      NoResetNoLoss(series[..|series| - 1], field);
      assert Counter(series[|series| - 1 - 1], field) <= Counter(series[|series| - 1], field);
    }
  }

  // ---------------------------------------------------------------------------------------------------------------
  // Selection and grouping.

  function Filter(xs: seq<Sample>, p: Sample -> bool): (r: seq<Sample>)
    ensures |r| <= |xs|
    ensures forall s :: s in r <==> s in xs && p(s)
  {
    if xs == [] then []
    else
      var rest := Filter(xs[..|xs| - 1], p);
      assert xs == xs[..|xs| - 1] + [xs[|xs| - 1]];
      if p(xs[|xs| - 1]) then rest + [xs[|xs| - 1]] else rest
  }

  function InBucket(key: int, bucketMs: int): Sample -> bool
    requires bucketMs > 0
  {
    (s: Sample) => BucketOf(s, bucketMs) == key
  }

  function OfWorkload(workload: int): Sample -> bool {
    (s: Sample) => s.workload == workload
  }

  /** The samples of one workload in one bucket, in input order. */
  function Group(samples: seq<Sample>, workload: int, key: int, bucketMs: int): seq<Sample>
    requires bucketMs > 0
  {
    Filter(Filter(samples, InBucket(key, bucketMs)), OfWorkload(workload))
  }

  /** Workloads by first occurrence: the order in which a JavaScript map lists its keys. */
  function WorkloadsOf(samples: seq<Sample>): (ws: seq<int>)
    ensures forall w :: w in ws <==> exists s :: s in samples && s.workload == w
  {
    if samples == [] then []
    else
      var init, last := samples[..|samples| - 1], samples[|samples| - 1];
      var rest := WorkloadsOf(init);
      assert samples == init + [last];
      if last.workload in rest then rest else rest + [last.workload]
  }

  /** The latest earlier sample of the same workload. */
  function Prev(samples: seq<Sample>, s: Sample): (p: Option<Sample>)
    ensures p.Some? ==> IsPrev(samples, s, p.value)
    ensures p.None? ==> forall q :: q in samples ==> !(q.workload == s.workload && q.at < s.at)
  {
    if samples == [] then None
    else
      var init, last := samples[..|samples| - 1], samples[|samples| - 1];
      var best := Prev(init, s);
      assert samples == init + [last];
      if last.workload == s.workload && last.at < s.at && (best.None? || best.value.at < last.at) then Some(last)
          else best
  }

  ghost predicate IsPrev(samples: seq<Sample>, s: Sample, p: Sample) {
    && p in samples && p.workload == s.workload && p.at < s.at
    && forall q :: q in samples && q.workload == s.workload && q.at < s.at ==> q.at <= p.at
  }

  // ---------------------------------------------------------------------------------------------------------------
  // The rate of a bucket.

  function Max(a: real, b: real): real { if a >= b then a else b }

  function Elapsed(series: seq<Sample>): (seconds: real)
    requires |series| >= 1
    ensures seconds >= 1.0
  {
    Max(1.0, (series[|series| - 1].at - series[0].at) as real / 1000.0)
  }

  function SeriesRate(series: seq<Sample>, field: Field): real {
    if |series| < 2 then 0.0 else Delta(series, field) as real / Elapsed(series)
  }

  /** A one-sample series borrows the sample before it, wherever that one lies. */
  function Borrowed(samples: seq<Sample>, series: seq<Sample>): seq<Sample> {
    if |series| == 1 && Prev(samples, series[0]).Some? then [Prev(samples, series[0]).value, series[0]] else series
  }

  function WorkloadRate(samples: seq<Sample>, workload: int, key: int, bucketMs: int, field: Field): real
    requires bucketMs > 0
  {
    SeriesRate(Borrowed(samples, Group(samples, workload, key, bucketMs)), field)
  }

  function SumRates(samples: seq<Sample>, workloads: seq<int>, key: int, bucketMs: int, field: Field): real
    requires bucketMs > 0
  {
    if workloads == [] then 0.0
    else SumRates(samples, workloads[..|workloads| - 1], key, bucketMs, field)
         + WorkloadRate(samples, workloads[|workloads| - 1], key, bucketMs, field)
  }

  function BucketRate(samples: seq<Sample>, key: int, bucketMs: int, field: Field): real
    requires bucketMs > 0
  {
    SumRates(samples, WorkloadsOf(Filter(samples, InBucket(key, bucketMs))), key, bucketMs, field)
  }

  // ---------------------------------------------------------------------------------------------------------------
  // Downsampling: the first and the last sample per workload and bucket.

  /** `first_rank = 1 OR last_rank = 1` within the partition by workload and bucket. */
  predicate Ranked(samples: seq<Sample>, bucketMs: int, s: Sample)
    requires bucketMs > 0
  {
    || (forall t :: t in samples && SameGroup(t, s, bucketMs) ==> s.at <= t.at)
    || (forall t :: t in samples && SameGroup(t, s, bucketMs) ==> t.at <= s.at)
  }

  predicate SameGroup(t: Sample, s: Sample, bucketMs: int)
    requires bucketMs > 0
  {
    t.workload == s.workload && BucketOf(t, bucketMs) == BucketOf(s, bucketMs)
  }

  function Keeps(samples: seq<Sample>, bucketMs: int): Sample -> bool
    requires bucketMs > 0
  {
    (s: Sample) => Ranked(samples, bucketMs, s)
  }

  function Downsample(samples: seq<Sample>, bucketMs: int): seq<Sample>
    requires bucketMs > 0
  {
    Filter(samples, Keeps(samples, bucketMs))
  }

  /** Within each workload the samples come in time order, as both forms of the query return them. */
  ghost predicate TimeOrdered(samples: seq<Sample>) {
    forall i, j :: 0 <= i < j < |samples| && samples[i].workload == samples[j].workload ==>
        samples[i].at < samples[j].at
  }

  lemma {:induction false} FilterCommutes(xs: seq<Sample>, p: Sample -> bool, q: Sample -> bool)
    ensures Filter(Filter(xs, p), q) == Filter(Filter(xs, q), p)
  {
    if xs != [] {
      var init, last := xs[..|xs| - 1], xs[|xs| - 1];
      FilterCommutes(init, p, q);
      assert (Filter(init, p) + [last])[..|Filter(init, p)|] == Filter(init, p);
      assert (Filter(init, q) + [last])[..|Filter(init, q)|] == Filter(init, q);
    }
  }

  lemma {:induction false} FilterKeepsTimeOrder(xs: seq<Sample>, p: Sample -> bool)
    requires TimeOrdered(xs)
    ensures TimeOrdered(Filter(xs, p))
  {
    if xs != [] {
      var init, last := xs[..|xs| - 1], xs[|xs| - 1];
      FilterKeepsTimeOrder(init, p);
      var rest := Filter(init, p);
      forall i | 0 <= i < |rest| && rest[i].workload == last.workload ensures rest[i].at < last.at {
        assert rest[i] in init;
        var k :| 0 <= k < |init| && init[k] == rest[i];
        assert xs[k] == init[k];
      }
    }
  }

  /** In a strictly rising series, keeping the first and the last leaves its ends. */
  lemma {:induction false} KeepEnds(xs: seq<Sample>, p: Sample -> bool)
    requires forall i :: 0 <= i < |xs| ==> (p(xs[i]) <==> i == 0 || i == |xs| - 1)
    ensures Filter(xs, p) == Ends(xs)
  {
    if xs != [] {
      KeepFirst(xs[..|xs| - 1], p);
    }
  }

  lemma {:induction false} KeepFirst(xs: seq<Sample>, p: Sample -> bool)
    requires forall i :: 0 <= i < |xs| ==> (p(xs[i]) <==> i == 0)
    ensures Filter(xs, p) == xs[..if xs == [] then 0 else 1]
  {
    if xs != [] {
      KeepFirst(xs[..|xs| - 1], p);
    }
  }

  lemma GroupIsRising(samples: seq<Sample>, w: int, key: int, bucketMs: int)
    requires bucketMs > 0 && TimeOrdered(samples)
    ensures var g := Group(samples, w, key, bucketMs);
            && (forall s :: s in g <==> s in samples && s.workload == w && BucketOf(s, bucketMs) == key)
            && (forall i, j :: 0 <= i < j < |g| ==> g[i].at < g[j].at)
  {
    var inBucket := Filter(samples, InBucket(key, bucketMs));
    FilterKeepsTimeOrder(samples, InBucket(key, bucketMs));
    FilterKeepsTimeOrder(inBucket, OfWorkload(w));
    var g := Group(samples, w, key, bucketMs);
    forall i, j | 0 <= i < j < |g| ensures g[i].at < g[j].at {
      assert g[i] in g && g[j] in g;
    }
  }

  /** Inside a group, the ranks select its first and its last sample. */
  lemma RankedAtEnds(samples: seq<Sample>, w: int, key: int, bucketMs: int, i: nat)
    requires bucketMs > 0 && TimeOrdered(samples) && i < |Group(samples, w, key, bucketMs)|
    ensures Ranked(samples, bucketMs, Group(samples, w, key, bucketMs)[i])
       <==> i == 0 || i == |Group(samples, w, key, bucketMs)| - 1
  {
    GroupIsRising(samples, w, key, bucketMs);
    var g := Group(samples, w, key, bucketMs);
    assert g[i] in g && g[0] in g && g[|g| - 1] in g;
    assert forall t :: t in samples && SameGroup(t, g[i], bucketMs) ==> t in g;
    assert SameGroup(g[0], g[i], bucketMs) && SameGroup(g[|g| - 1], g[i], bucketMs);
  }

  /** Downsampling keeps of every group exactly its ends. */
  lemma GroupKeepsEnds(samples: seq<Sample>, w: int, key: int, bucketMs: int)
    requires bucketMs > 0 && TimeOrdered(samples)
    ensures Group(Downsample(samples, bucketMs), w, key, bucketMs) == Ends(Group(samples, w, key, bucketMs))
  {
    var keeps := Keeps(samples, bucketMs);
    FilterCommutes(samples, keeps, InBucket(key, bucketMs));
    FilterCommutes(Filter(samples, InBucket(key, bucketMs)), keeps, OfWorkload(w));
    var g := Group(samples, w, key, bucketMs);
    forall i | 0 <= i < |g| ensures keeps(g[i]) <==> i == 0 || i == |g| - 1 {
      RankedAtEnds(samples, w, key, bucketMs, i);
    }
    KeepEnds(g, keeps);
  }

  lemma ProductGrows(x: int, y: int, m: int)
    requires m >= 0 && x <= y
    ensures x * m <= y * m
  {
    assert (y - x) * m >= 0;
  }

  lemma ProductCancels(x: int, y: int, m: int)
    requires m > 0
    ensures x * m < y * m ==> x < y
  {
    if y <= x { ProductGrows(y, x, m); }
  }

  /** Floors of times are ordered as the times are. */
  lemma LaterBucket(a: int, b: int, bucketMs: int)
    requires bucketMs > 0 && a <= b
    ensures a / bucketMs * bucketMs <= b / bucketMs * bucketMs
  {
    var qa, qb := a / bucketMs, b / bucketMs;
    assert qa * bucketMs <= a && b < qb * bucketMs + bucketMs;
    assert (qb + 1) * bucketMs == qb * bucketMs + bucketMs;
    ProductCancels(qa, qb + 1, bucketMs);
    ProductGrows(qa, qb, bucketMs);
  }

  /** The sample before one in a later bucket is the last of its own group, so downsampling keeps it. */
  lemma PrevIsRanked(samples: seq<Sample>, bucketMs: int, s: Sample, p: Sample)
    requires bucketMs > 0 && TimeOrdered(samples) && s in samples && IsPrev(samples, s, p)
    requires BucketOf(p, bucketMs) != BucketOf(s, bucketMs)
    ensures Ranked(samples, bucketMs, p)
  {
    forall t | t in samples && SameGroup(t, p, bucketMs) ensures t.at <= p.at {
      if t.at >= s.at {
        LaterBucket(p.at, s.at, bucketMs);
        LaterBucket(s.at, t.at, bucketMs);
      }
    }
  }

  lemma SameSample(samples: seq<Sample>, a: Sample, b: Sample)
    requires TimeOrdered(samples) && a in samples && b in samples && a.workload == b.workload && a.at == b.at
    ensures a == b
  {
    var i :| 0 <= i < |samples| && samples[i] == a;
    var j :| 0 <= j < |samples| && samples[j] == b;
  }

  /** A sample alone in its group borrows the same predecessor before and after downsampling. */
  lemma PrevIsKept(samples: seq<Sample>, bucketMs: int, s: Sample)
    requires bucketMs > 0 && TimeOrdered(samples) && s in samples
    requires forall t :: t in samples && SameGroup(t, s, bucketMs) ==> t == s
    ensures Prev(Downsample(samples, bucketMs), s) == Prev(samples, s)
  {
    var down := Downsample(samples, bucketMs);
    assert forall q :: q in down ==> q in samples;
    var p, p' := Prev(samples, s), Prev(down, s);
    if p.Some? {
      assert !SameGroup(p.value, s, bucketMs);
      PrevIsRanked(samples, bucketMs, s, p.value);
      assert p.value in down;
      assert p'.Some? && p'.value in samples;
      SameSample(samples, p.value, p'.value);
    }
  }

  /** The series a rate is computed from: after downsampling, the ends of the same series. */
  lemma BorrowedKeepsEnds(samples: seq<Sample>, w: int, key: int, bucketMs: int)
    requires bucketMs > 0 && TimeOrdered(samples)
    ensures var g := Group(samples, w, key, bucketMs);
            var down := Downsample(samples, bucketMs);
            Borrowed(down, Group(down, w, key, bucketMs)) == if |g| == 1 then Borrowed(samples, g) else Ends(g)
  {
    hide Group, Downsample, Prev, BucketOf, TimeOrdered;
    GroupKeepsEnds(samples, w, key, bucketMs);
    GroupIsRising(samples, w, key, bucketMs);
    var g := Group(samples, w, key, bucketMs);
    if |g| == 1 {
      assert g[0] in g;
      forall t | t in samples && SameGroup(t, g[0], bucketMs) ensures t == g[0] {
        assert t in g;
      }
      PrevIsKept(samples, bucketMs, g[0]);
    }
  }

  /** What downsampling takes from one workload's rate in one bucket. */
  function Lost(samples: seq<Sample>, w: int, key: int, bucketMs: int, field: Field): real
    requires bucketMs > 0
  {
    var g := Group(samples, w, key, bucketMs);
    if |g| < 2 then 0.0 else Forgotten(g, field) as real / Elapsed(g)
  }

  lemma SeriesRateLoses(g: seq<Sample>, field: Field)
    requires |g| >= 2
    ensures SeriesRate(g, field) == SeriesRate(Ends(g), field) + Forgotten(g, field) as real / Elapsed(g)
    ensures Forgotten(g, field) as real / Elapsed(g) >= 0.0
    ensures NoReset(g, field) ==> Forgotten(g, field) as real / Elapsed(g) == 0.0
  {
    EndsForgetResets(g, field);
    if NoReset(g, field) { NoResetNoLoss(g, field); }
    assert Elapsed(Ends(g)) == Elapsed(g);
    DivideSum(Delta(Ends(g), field) as real, Forgotten(g, field) as real, Elapsed(g));
  }

  lemma WorkloadRateLoses(samples: seq<Sample>, w: int, key: int, bucketMs: int, field: Field)
    requires bucketMs > 0 && TimeOrdered(samples)
    ensures WorkloadRate(samples, w, key, bucketMs, field)
         == WorkloadRate(Downsample(samples, bucketMs), w, key, bucketMs, field)
             + Lost(samples, w, key, bucketMs, field)
    ensures Lost(samples, w, key, bucketMs, field) >= 0.0
    ensures NoReset(Group(samples, w, key, bucketMs), field) ==> Lost(samples, w, key, bucketMs, field) == 0.0
  {
    hide SeriesRate, NoReset, Group, Downsample, Forgotten, Elapsed;
    var g := Group(samples, w, key, bucketMs);
    BorrowedKeepsEnds(samples, w, key, bucketMs);
    if |g| >= 2 {
      SeriesRateLoses(g, field);
    }
  }

  lemma DivideSum(a: real, b: real, seconds: real)
    requires seconds >= 1.0
    ensures (a + b) / seconds == a / seconds + b / seconds
    ensures b >= 0.0 ==> b / seconds >= 0.0
    ensures b == 0.0 <==> b / seconds == 0.0
  {
  }

  /** The workloads of a bucket appear in the same order after downsampling. */
  lemma {:induction false} WorkloadsKept(samples: seq<Sample>, xs: seq<Sample>, key: int, bucketMs: int)
    requires bucketMs > 0 && TimeOrdered(samples)
    requires xs <= Filter(samples, InBucket(key, bucketMs))
    ensures WorkloadsOf(Filter(xs, Keeps(samples, bucketMs))) == WorkloadsOf(xs)
  {
    if xs != [] {
      var init, last := xs[..|xs| - 1], xs[|xs| - 1];
      WorkloadsKept(samples, init, key, bucketMs);
      var kept := Filter(init, Keeps(samples, bucketMs));
      assert (kept + [last])[..|kept|] == kept;
      if last.workload !in WorkloadsOf(init) {
        FirstIsRanked(samples, xs, key, bucketMs);
      }
    }
  }

  lemma FirstIsRanked(samples: seq<Sample>, xs: seq<Sample>, key: int, bucketMs: int)
    requires bucketMs > 0 && TimeOrdered(samples) && xs != []
    requires xs <= Filter(samples, InBucket(key, bucketMs))
    requires xs[|xs| - 1].workload !in WorkloadsOf(xs[..|xs| - 1])
    ensures Ranked(samples, bucketMs, xs[|xs| - 1])
  {
    var all := Filter(samples, InBucket(key, bucketMs));
    var last := xs[|xs| - 1];
    FilterKeepsTimeOrder(samples, InBucket(key, bucketMs));
    assert last == all[|xs| - 1] && last in all;
    forall j | 0 <= j < |xs| - 1 ensures all[j].workload != last.workload {
      assert xs[..|xs| - 1][j] in xs[..|xs| - 1];
    }
    forall t | t in samples && SameGroup(t, last, bucketMs) ensures last.at <= t.at {
      assert t in all;
      var k :| 0 <= k < |all| && all[k] == t;
    }
  }

  lemma BucketWorkloadsKept(samples: seq<Sample>, key: int, bucketMs: int)
    requires bucketMs > 0 && TimeOrdered(samples)
    ensures WorkloadsOf(Filter(Downsample(samples, bucketMs), InBucket(key, bucketMs)))
         == WorkloadsOf(Filter(samples, InBucket(key, bucketMs)))
  {
    FilterCommutes(samples, Keeps(samples, bucketMs), InBucket(key, bucketMs));
    WorkloadsKept(samples, Filter(samples, InBucket(key, bucketMs)), key, bucketMs);
  }

  function SumLost(samples: seq<Sample>, workloads: seq<int>, key: int, bucketMs: int, field: Field): real
    requires bucketMs > 0
  {
    if workloads == [] then 0.0
    else SumLost(samples, workloads[..|workloads| - 1], key, bucketMs, field)
         + Lost(samples, workloads[|workloads| - 1], key, bucketMs, field)
  }

  lemma {:induction false} SumRatesLose(samples: seq<Sample>, workloads: seq<int>, key: int, bucketMs: int,
                                        field: Field)
    requires bucketMs > 0 && TimeOrdered(samples)
    ensures SumRates(samples, workloads, key, bucketMs, field)
         == SumRates(Downsample(samples, bucketMs), workloads, key, bucketMs, field)
             + SumLost(samples, workloads, key, bucketMs, field)
    ensures SumLost(samples, workloads, key, bucketMs, field) >= 0.0
    ensures SumLost(samples, workloads, key, bucketMs, field) == 0.0 <==>
              forall w :: w in workloads ==> Lost(samples, w, key, bucketMs, field) == 0.0
  {
    hide WorkloadRate, Lost, Downsample, TimeOrdered;
    if workloads != [] {
      var init, w := workloads[..|workloads| - 1], workloads[|workloads| - 1];
      SumRatesLose(samples, init, key, bucketMs, field);
      WorkloadRateLoses(samples, w, key, bucketMs, field);
      assert workloads == init + [w];
      assert Lost(samples, w, key, bucketMs, field) == 0.0 || w in workloads;
    }
  }

  /** Every workload's growth in the bucket is told by its first and last sample. */
  ghost predicate Lossless(samples: seq<Sample>, key: int, bucketMs: int, field: Field)
    requires bucketMs > 0
  {
    forall w :: |Group(samples, w, key, bucketMs)| >= 2 ==> Forgotten(Group(samples, w, key, bucketMs), field) == 0
  }

  lemma LosslessIffNothingLost(samples: seq<Sample>, key: int, bucketMs: int, field: Field)
    requires bucketMs > 0 && TimeOrdered(samples)
    ensures Lossless(samples, key, bucketMs, field) <==>
              forall w :: w in WorkloadsOf(Filter(samples, InBucket(key, bucketMs))) ==>
                  Lost(samples, w, key, bucketMs, field) == 0.0
  {
    forall w
      ensures |Group(samples, w, key, bucketMs)| >= 2 ==> w in WorkloadsOf(Filter(samples, InBucket(key, bucketMs)))
      ensures Lost(samples, w, key, bucketMs, field) == 0.0 <==>
                (|Group(samples, w, key, bucketMs)| >= 2 ==> Forgotten(Group(samples, w, key, bucketMs), field) == 0)
    {
      var g := Group(samples, w, key, bucketMs);
      if |g| >= 2 {
        assert g[0] in g;
        DivideSum(0.0, Forgotten(g, field) as real, Elapsed(g));
      }
    }
  }

  /**
   * Downsampling never raises a rate, leaves it equal exactly when no workload's first and last sample hide growth,
   * and so leaves it equal when no counter resets inside the bucket.
   */
  lemma DownsamplingNeverRaises(samples: seq<Sample>, key: int, bucketMs: int, field: Field)
    requires bucketMs > 0 && TimeOrdered(samples)
    ensures BucketRate(Downsample(samples, bucketMs), key, bucketMs, field) <= BucketRate(samples, key, bucketMs, field)
    ensures BucketRate(Downsample(samples, bucketMs), key, bucketMs, field) == BucketRate(samples, key, bucketMs, field)
       <==> Lossless(samples, key, bucketMs, field)
    ensures (forall w :: NoReset(Group(samples, w, key, bucketMs), field)) ==> Lossless(samples, key, bucketMs, field)
  {
    var workloads := WorkloadsOf(Filter(samples, InBucket(key, bucketMs)));
    BucketWorkloadsKept(samples, key, bucketMs);
    SumRatesLose(samples, workloads, key, bucketMs, field);
    LosslessIffNothingLost(samples, key, bucketMs, field);
    if forall w :: NoReset(Group(samples, w, key, bucketMs), field) {
      forall w ensures |Group(samples, w, key, bucketMs)| >= 2 ==>
          Forgotten(Group(samples, w, key, bucketMs), field) == 0 {
        NoResetNoLoss(Group(samples, w, key, bucketMs), field);
        if |Group(samples, w, key, bucketMs)| >= 2 { EndsForgetResets(Group(samples, w, key, bucketMs), field); }
      }
    }
  }

  /** No bucket disappears, and none appears. */
  lemma DownsamplingKeepsBuckets(samples: seq<Sample>, key: int, bucketMs: int)
    requires bucketMs > 0 && TimeOrdered(samples)
    ensures Occupied(Downsample(samples, bucketMs), bucketMs, key) <==> Occupied(samples, bucketMs, key)
  {
    hide Group, Ranked, TimeOrdered;
    if s :| s in samples && BucketOf(s, bucketMs) == key {
      GroupKeepsEnds(samples, s.workload, key, bucketMs);
      GroupIsRising(samples, s.workload, key, bucketMs);
      assert s in Group(samples, s.workload, key, bucketMs);
      GroupMembers(Downsample(samples, bucketMs), s.workload, key, bucketMs);
    }
  }

  lemma GroupMembers(samples: seq<Sample>, w: int, key: int, bucketMs: int)
    requires bucketMs > 0
    ensures Group(samples, w, key, bucketMs) != [] ==> exists s :: s in samples && BucketOf(s, bucketMs) == key
  {
    var g := Group(samples, w, key, bucketMs);
    if g != [] {
      assert g[0] in g;
      assert g[0] in samples && BucketOf(g[0], bucketMs) == key;
    }
  }

  // ---------------------------------------------------------------------------------------------------------------
  // The aggregation itself.

  datatype Bucket = Bucket(timestamp: int, rx: real, tx: real, read: real, written: real)

  function RateIn(b: Bucket, field: Field): real {
    match field
    case Rx => b.rx
    case Tx => b.tx
    case DiskRead => b.read
    case DiskWrite => b.written
  }

  /** The table's unique index: no two samples of one workload at one time. */
  ghost predicate Distinct(samples: seq<Sample>) {
    forall i, j :: 0 <= i < j < |samples| && samples[i].workload == samples[j].workload ==>
        samples[i].at != samples[j].at
  }

  /** What the aggregation returns: one bucket per occupied key, in order, each rate summed over its workloads. */
  ghost predicate Aggregated(samples: seq<Sample>, bucketMs: int, out: seq<Bucket>)
    requires bucketMs > 0
  {
    && (forall i, j :: 0 <= i < j < |out| ==> out[i].timestamp < out[j].timestamp)
    && (forall key :: (exists i :: 0 <= i < |out| && out[i].timestamp == key) <==> Occupied(samples, bucketMs, key))
    && (forall i, field :: 0 <= i < |out| ==>
        RateIn(out[i], field) == BucketRate(samples, out[i].timestamp, bucketMs, field))
  }

  ghost predicate Occupied(samples: seq<Sample>, bucketMs: int, key: int)
    requires bucketMs > 0
  {
    exists s :: s in samples && BucketOf(s, bucketMs) == key
  }

  function InsertSample(xs: seq<Sample>, s: Sample): (r: seq<Sample>)
    requires Ordered(xs) && forall x :: x in xs ==> Before(x, s) || Before(s, x)
    ensures Ordered(r) && forall x :: x in r <==> x in xs || x == s
  {
    if xs == [] || Before(xs[|xs| - 1], s) then xs + [s]
    else
      var init, last := xs[..|xs| - 1], xs[|xs| - 1];
      assert xs == init + [last];
      var rest := InsertSample(init, s);
      assert forall i :: 0 <= i < |rest| ==> Before(rest[i], last) by {
        assert last in xs;
        forall i | 0 <= i < |rest| ensures Before(rest[i], last) {
          assert rest[i] in rest;
          if rest[i] in init { var k :| 0 <= k < |init| && init[k] == rest[i]; assert xs[k] == rest[i]; }
        }
      }
      rest + [last]
  }

  /** The sort by workload, then time. */
  function SortSamples(samples: seq<Sample>): (r: seq<Sample>)
    requires Distinct(samples)
    ensures Ordered(r) && forall x :: x in r <==> x in samples
  {
    if samples == [] then []
    else
      var init, last := samples[..|samples| - 1], samples[|samples| - 1];
      var rest := SortSamples(init);
      assert samples == init + [last];
      assert forall x :: x in rest ==> Before(x, last) || Before(last, x) by {
        forall x | x in rest ensures Before(x, last) || Before(last, x) {
          var k :| 0 <= k < |init| && init[k] == x;
          assert samples[k] == x;
        }
      }
      InsertSample(rest, last)
  }

  predicate Rising(keys: seq<int>) {
    forall i, j :: 0 <= i < j < |keys| ==> keys[i] < keys[j]
  }

  function InsertKey(keys: seq<int>, key: int): (r: seq<int>)
    requires Rising(keys) && key !in keys
    ensures Rising(r) && forall k :: k in r <==> k in keys || k == key
  {
    if keys == [] || keys[|keys| - 1] < key then keys + [key]
    else
      var init, last := keys[..|keys| - 1], keys[|keys| - 1];
      assert keys == init + [last];
      var rest := InsertKey(init, key);
      assert forall i :: 0 <= i < |rest| ==> rest[i] < last by {
        assert last in keys;
        forall i | 0 <= i < |rest| ensures rest[i] < last {
          assert rest[i] in rest;
        }
      }
      rest + [last]
  }

  function Lookup<K, V>(m: map<K, V>, k: K): Option<V> {
    if k in m then Some(m[k]) else None
  }

  /** The neighbour before a position, when it is of the same workload. */
  function Neighbour(ordered: seq<Sample>, i: nat): Option<Sample>
    requires i < |ordered|
  {
    if i > 0 && ordered[i - 1].workload == ordered[i].workload then Some(ordered[i - 1]) else None
  }

  /** The previous-sample index read off the sorted samples. */
  ghost predicate IndexesPrev(samples: seq<Sample>, previous: map<Sample, Sample>) {
    forall s :: s in samples ==> Lookup(previous, s) == Prev(samples, s)
  }

  /** In the sorted samples, the predecessor of a sample is its neighbour. */
  lemma NeighbourIsPrev(samples: seq<Sample>, ordered: seq<Sample>, i: nat)
    requires Ordered(ordered) && (forall x :: x in ordered <==> x in samples) && i < |ordered|
    ensures Prev(samples, ordered[i]) == Neighbour(ordered, i)
  {
    var s := ordered[i];
    forall q | q in samples && q.workload == s.workload && q.at < s.at
      ensures i > 0 && ordered[i - 1].workload == s.workload && (q == ordered[i - 1] || q.at < ordered[i - 1].at)
    {
      EarlierIsBefore(ordered, i, q);
    }
    if Neighbour(ordered, i).Some? {
      assert ordered[i - 1] in samples && Before(ordered[i - 1], s);
    }
  }

  lemma EarlierIsBefore(ordered: seq<Sample>, i: nat, q: Sample)
    requires Ordered(ordered) && i < |ordered| && q in ordered
    requires q.workload == ordered[i].workload && q.at < ordered[i].at
    ensures i > 0 && ordered[i - 1].workload == q.workload && (q == ordered[i - 1] || q.at < ordered[i - 1].at)
  {
    var k :| 0 <= k < |ordered| && ordered[k] == q;
    assert k < i - 1 ==> Before(ordered[k], ordered[i - 1]) && Before(ordered[i - 1], ordered[i]);
  }

  method IndexPrevious(samples: seq<Sample>) returns (previous: map<Sample, Sample>)
    requires Distinct(samples)
    ensures IndexesPrev(samples, previous)
  {
    var ordered := SortSamples(samples);
    previous := map[];
    for i := 0 to |ordered|
      invariant forall k :: 0 <= k < i ==> Lookup(previous, ordered[k]) == Neighbour(ordered, k)
      invariant forall s :: s in previous ==> s in ordered[..i]
    {
      forall k | 0 <= k < i ensures ordered[k] != ordered[i] {
        assert Before(ordered[k], ordered[i]);
      }
      assert ordered[i] !in ordered[..i];
      if i > 0 && ordered[i - 1].workload == ordered[i].workload {
        previous := previous[ordered[i] := ordered[i - 1]];
      }
      assert ordered[..i + 1] == ordered[..i] + [ordered[i]];
    }
    forall s | s in samples ensures Lookup(previous, s) == Prev(samples, s) {
      assert s in ordered;
      var i :| 0 <= i < |ordered| && ordered[i] == s;
      NeighbourIsPrev(samples, ordered, i);
    }
  }

  /** The series of each workload of a bucket, and the workloads in the order they were first seen. */
  ghost predicate GroupedBy(values: seq<Sample>, workloads: seq<int>, byWorkload: map<int, seq<Sample>>) {
    && workloads == WorkloadsOf(values)
    && (forall w :: w in workloads <==> w in byWorkload)
    && (forall w :: w in byWorkload ==> byWorkload[w] == Filter(values, OfWorkload(w)))
  }

  method GroupByWorkload(values: seq<Sample>) returns (workloads: seq<int>, byWorkload: map<int, seq<Sample>>)
    ensures GroupedBy(values, workloads, byWorkload)
  {
    workloads, byWorkload := [], map[];
    for j := 0 to |values|
      invariant GroupedBy(values[..j], workloads, byWorkload)
    {
      var value := values[j];
      assert values[..j + 1][..j] == values[..j] && values[..j + 1] == values[..j] + [value];
      forall w ensures Filter(values[..j + 1], OfWorkload(w))
                    == if value.workload == w then Filter(values[..j], OfWorkload(w)) + [value]
                        else Filter(values[..j], OfWorkload(w))
      {
        FilterSnoc(values[..j], value, OfWorkload(w));
      }
      if value.workload in byWorkload {
        byWorkload := byWorkload[value.workload := byWorkload[value.workload] + [value]];
      } else {
        NoneOfWorkload(values[..j], value.workload);
        workloads := workloads + [value.workload];
        byWorkload := byWorkload[value.workload := [value]];
      }
    }
    assert values[..|values|] == values;
  }

  method SeriesGrowth(samples: seq<Sample>, previous: map<Sample, Sample>, series0: seq<Sample>, field: Field)
    returns (rate: real)
    requires IndexesPrev(samples, previous) && forall s :: s in series0 ==> s in samples
    ensures rate == SeriesRate(Borrowed(samples, series0), field)
  {
    var series := series0;
    if |series| == 1 {
      assert series[0] in series;
      assert Lookup(previous, series[0]) == Prev(samples, series[0]);
      if series[0] in previous { series := [previous[series[0]], series[0]]; }
    }
    rate := if |series| < 2 then 0.0 else Delta(series, field) as real / Elapsed(series);
  }

  /** One field's rate over the series of a bucket. */
  method SumSeries(samples: seq<Sample>, previous: map<Sample, Sample>, workloads: seq<int>,
                   byWorkload: map<int, seq<Sample>>, ghost key: int, ghost bucketMs: int, field: Field)
    returns (total: real)
    requires bucketMs > 0 && IndexesPrev(samples, previous)
    requires GroupedBy(Filter(samples, InBucket(key, bucketMs)), workloads, byWorkload)
    ensures total == BucketRate(samples, key, bucketMs, field)
  {
    hide SeriesRate, Borrowed, Lookup;
    total := 0.0;
    for i := 0 to |workloads|
      invariant total == SumRates(samples, workloads[..i], key, bucketMs, field)
    {
      assert workloads[i] in workloads;
      var rate := SeriesGrowth(samples, previous, byWorkload[workloads[i]], field);
      assert workloads[..i + 1][..i] == workloads[..i];
      total := total + rate;
    }
    assert workloads[..|workloads|] == workloads;
  }

  method AggregateBucket(samples: seq<Sample>, previous: map<Sample, Sample>, key: int, values: seq<Sample>,
                         ghost bucketMs: int)
    returns (b: Bucket)
    requires bucketMs > 0 && IndexesPrev(samples, previous)
    requires values == Filter(samples, InBucket(key, bucketMs))
    ensures b.timestamp == key && forall field :: RateIn(b, field) == BucketRate(samples, key, bucketMs, field)
  {
    hide GroupedBy, BucketRate;
    var workloads, byWorkload := GroupByWorkload(values);
    var rx := SumSeries(samples, previous, workloads, byWorkload, key, bucketMs, Rx);
    var tx := SumSeries(samples, previous, workloads, byWorkload, key, bucketMs, Tx);
    var read := SumSeries(samples, previous, workloads, byWorkload, key, bucketMs, DiskRead);
    var written := SumSeries(samples, previous, workloads, byWorkload, key, bucketMs, DiskWrite);
    b := Bucket(key, rx, tx, read, written);
  }

  lemma FilterSnoc(xs: seq<Sample>, s: Sample, p: Sample -> bool)
    ensures Filter(xs + [s], p) == if p(s) then Filter(xs, p) + [s] else Filter(xs, p)
  {
    assert (xs + [s])[..|xs|] == xs;
  }

  lemma EmptyFilter(xs: seq<Sample>, p: Sample -> bool)
    requires forall s :: s in xs ==> !p(s)
    ensures Filter(xs, p) == []
  {
    var r := Filter(xs, p);
    assert forall s :: s in r ==> s in xs && p(s);
    assert forall i :: 0 <= i < |r| ==> r[i] !in r;
  }

  lemma NoneOfWorkload(xs: seq<Sample>, w: int)
    requires w !in WorkloadsOf(xs)
    ensures Filter(xs, OfWorkload(w)) == []
  {
    EmptyFilter(xs, OfWorkload(w));
  }

  /** The bucket map after some samples, and its keys in order. */
  ghost predicate Bucketed(samples: seq<Sample>, bucketMs: int, keys: seq<int>, buckets: map<int, seq<Sample>>)
    requires bucketMs > 0
  {
    && Rising(keys) && (forall key :: key in keys <==> key in buckets)
    && (forall key :: key in buckets ==> buckets[key] == Filter(samples, InBucket(key, bucketMs)) && buckets[key] != [])
    && (forall s :: s in samples ==> BucketOf(s, bucketMs) in buckets)
  }

  lemma OneMoreSample(xs: seq<Sample>, sample: Sample, bucketMs: int, keys: seq<int>, buckets: map<int, seq<Sample>>)
    requires bucketMs > 0 && Bucketed(xs, bucketMs, keys, buckets)
    ensures var key := BucketOf(sample, bucketMs);
            if key in buckets then Bucketed(xs + [sample], bucketMs, keys, buckets[key := buckets[key] + [sample]])
            else key !in keys && Bucketed(xs + [sample], bucketMs, InsertKey(keys, key), buckets[key := [sample]])
  {
    hide Filter, BucketOf, InsertKey, Rising;
    var key := BucketOf(sample, bucketMs);
    forall k ensures Filter(xs + [sample], InBucket(k, bucketMs))
                  == if key == k then Filter(xs, InBucket(k, bucketMs)) + [sample]
                      else Filter(xs, InBucket(k, bucketMs))
    {
      FilterSnoc(xs, sample, InBucket(k, bucketMs));
    }
    if key !in buckets {
      EmptyFilter(xs, InBucket(key, bucketMs));
    }
  }

  method FillBuckets(samples: seq<Sample>, bucketMs: int) returns (keys: seq<int>, buckets: map<int, seq<Sample>>)
    requires bucketMs > 0
    ensures Bucketed(samples, bucketMs, keys, buckets)
  {
    keys, buckets := [], map[];
    for i := 0 to |samples|
      invariant Bucketed(samples[..i], bucketMs, keys, buckets)
    {
      hide Bucketed;
      var sample := samples[i];
      var key := BucketOf(sample, bucketMs);
      assert samples[..i + 1] == samples[..i] + [sample];
      OneMoreSample(samples[..i], sample, bucketMs, keys, buckets);
      if key in buckets {
        buckets := buckets[key := buckets[key] + [sample]];
      } else {
        keys := InsertKey(keys, key);
        buckets := buckets[key := [sample]];
      }
    }
    assert samples[..|samples|] == samples;
  }

  method Aggregate(samples: seq<Sample>, bucketMs: int) returns (out: seq<Bucket>)
    requires bucketMs > 0 && Distinct(samples)
    ensures Aggregated(samples, bucketMs, out)
  {
    hide BucketRate;
    var previous := IndexPrevious(samples);
    var keys, buckets := FillBuckets(samples, bucketMs);
    out := [];
    for i := 0 to |keys|
      invariant |out| == i && forall k :: 0 <= k < i ==> out[k].timestamp == keys[k]
      invariant forall k, field :: 0 <= k < i ==>
                RateIn(out[k], field) == BucketRate(samples, out[k].timestamp, bucketMs, field)
    {
      assert keys[i] in keys;
      var b := AggregateBucket(samples, previous, keys[i], buckets[keys[i]], bucketMs);
      out := out + [b];
    }
    forall key ensures (exists i :: 0 <= i < |out| && out[i].timestamp == key) <==> Occupied(samples, bucketMs, key) {
      KeyIsOccupied(samples, bucketMs, keys, buckets, key);
      assert key in keys <==> exists i :: 0 <= i < |out| && out[i].timestamp == key;
    }
  }

  lemma KeyIsOccupied(samples: seq<Sample>, bucketMs: int, keys: seq<int>, buckets: map<int, seq<Sample>>, key: int)
    requires bucketMs > 0 && Bucketed(samples, bucketMs, keys, buckets)
    ensures key in keys <==> Occupied(samples, bucketMs, key)
  {
    if key in keys {
      assert buckets[key][0] in buckets[key];
      assert buckets[key][0] in samples && BucketOf(buckets[key][0], bucketMs) == key;
    }
  }

  function Timestamps(out: seq<Bucket>): (ts: seq<int>)
    ensures |ts| == |out| && forall i :: 0 <= i < |ts| ==> ts[i] == out[i].timestamp
  {
    seq(|out|, i requires 0 <= i < |out| => out[i].timestamp)
  }

  lemma SameTimestamps(samples: seq<Sample>, bucketMs: int, out: seq<Bucket>, down: seq<Bucket>)
    requires bucketMs > 0 && TimeOrdered(samples)
    requires Aggregated(samples, bucketMs, out) && Aggregated(Downsample(samples, bucketMs), bucketMs, down)
    ensures Timestamps(out) == Timestamps(down)
  {
    hide Downsample, TimeOrdered, BucketRate, BucketOf;
    forall key ensures key in Timestamps(out) <==> key in Timestamps(down) {
      DownsamplingKeepsBuckets(samples, key, bucketMs);
      assert key in Timestamps(out) <==> exists i :: 0 <= i < |out| && out[i].timestamp == key;
      assert key in Timestamps(down) <==> exists i :: 0 <= i < |down| && down[i].timestamp == key;
    }
    SameKeys(Timestamps(out), Timestamps(down));
  }

  /** What a caller sees: the same buckets, at the same times, with rates that never rose. */
  lemma DownsampledAggregation(samples: seq<Sample>, bucketMs: int, out: seq<Bucket>, down: seq<Bucket>)
    requires bucketMs > 0 && TimeOrdered(samples)
    requires Aggregated(samples, bucketMs, out) && Aggregated(Downsample(samples, bucketMs), bucketMs, down)
    ensures |down| == |out|
    ensures forall i, field :: 0 <= i < |out| ==>
              && down[i].timestamp == out[i].timestamp
              && RateIn(down[i], field) <= RateIn(out[i], field)
              && (RateIn(down[i], field) == RateIn(out[i], field)
                  <==> Lossless(samples, out[i].timestamp, bucketMs, field))
  {
    hide Downsample, TimeOrdered, BucketRate, RateIn, Lossless;
    SameTimestamps(samples, bucketMs, out, down);
    assert |Timestamps(out)| == |Timestamps(down)|;
    forall i, field | 0 <= i < |out|
      ensures down[i].timestamp == out[i].timestamp && RateIn(down[i], field) <= RateIn(out[i], field)
      ensures RateIn(down[i], field) == RateIn(out[i], field) <==> Lossless(samples, out[i].timestamp, bucketMs, field)
    {
      assert Timestamps(out)[i] == Timestamps(down)[i];
      DownsamplingNeverRaises(samples, out[i].timestamp, bucketMs, field);
    }
  }

  lemma WithoutLast(keys: seq<int>)
    requires Rising(keys) && keys != []
    ensures Rising(keys[..|keys| - 1])
    ensures forall k :: k in keys ==> k <= keys[|keys| - 1]
    ensures forall k :: k in keys[..|keys| - 1] <==> k in keys && k != keys[|keys| - 1]
  {
    var init, last := keys[..|keys| - 1], keys[|keys| - 1];
    assert keys == init + [last];
    forall k | k in init ensures k < last {
      var i :| 0 <= i < |init| && init[i] == k;
      assert keys[i] == k;
    }
  }

  /** Two rising sequences with the same members are equal. */
  lemma {:induction false} SameKeys(a: seq<int>, b: seq<int>)
    requires Rising(a) && Rising(b) && forall k :: k in a <==> k in b
    ensures a == b
  {
    assert a != [] ==> a[0] in a;
    assert b != [] ==> b[0] in b;
    if a != [] && b != [] {
      var a', b' := a[..|a| - 1], b[..|b| - 1];
      var x, y := a[|a| - 1], b[|b| - 1];
      WithoutLast(a);
      WithoutLast(b);
      assert x in a && y in b && x == y;
      forall k ensures k in a' <==> k in b' {
        assert k in a <==> k in b;
      }
      SameKeys(a', b');
      assert a == a' + [x] && b == b' + [y];
    }
  }
}
