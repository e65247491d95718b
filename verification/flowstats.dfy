/**
 * The per-operation statistics record of filebench (struct flowstats) and
 * the merge that folds one record into another (stats_add in stats.c).
 */
module FlowStatsRecord {

  /** Number of latency histogram buckets (OSPROF_BUCKET_NUMBER). */
  const OSPROF_BUCKET_NUMBER: nat := 64

  /** ULLONG_MAX: the "no observation yet" value of a minimum latency. */
  const ULLONG_MAX: nat := 0xFFFF_FFFF_FFFF_FFFF

  /** The fixed-length latency histogram fs_distribution. */
  type Histogram = h: seq<nat> | |h| == OSPROF_BUCKET_NUMBER
    witness seq(OSPROF_BUCKET_NUMBER, _ => 0)

  /** The fields of struct flowstats that the statistics engine reads or writes. */
  datatype FlowStats = FlowStats(
    count: nat,           // fs_count
    rcount: nat,          // fs_rcount
    wcount: nat,          // fs_wcount
    bytes: nat,           // fs_bytes
    rbytes: nat,          // fs_rbytes
    wbytes: nat,          // fs_wbytes
    totalLat: nat,        // fs_total_lat
    maxLat: nat,          // fs_maxlat
    minLat: nat,          // fs_minlat
    sysCpu: int,          // fs_syscpu
    startTime: int,       // fs_stime
    endTime: int,         // fs_etime
    distribution: Histogram)

  /** The seven counters that a merge sums. */
  datatype Counter = Count | RCount | WCount | Bytes | RBytes | WBytes | TotalLat

  function Get(s: FlowStats, c: Counter): nat
  {
    match c
    case Count => s.count
    case RCount => s.rcount
    case WCount => s.wcount
    case Bytes => s.bytes
    case RBytes => s.rbytes
    case WBytes => s.wbytes
    case TotalLat => s.totalLat
  }

  function Max(x: nat, y: nat): nat { if y > x then y else x }

  function Min(x: nat, y: nat): nat { if y < x then y else x }

  function EmptyHistogram(): Histogram { seq(OSPROF_BUCKET_NUMBER, _ => 0) }

  /** A record cleared with memset: every field zero, minimum latency included. */
  function Zero(): FlowStats
  {
    FlowStats(0, 0, 0, 0, 0, 0, 0, 0, 0, 0, 0, 0, EmptyHistogram())
  }

  /** A zeroed record whose minimum latency is the ULLONG_MAX sentinel. */
  function Idle(): FlowStats
  {
    Zero().(minLat := ULLONG_MAX)
  }

  function AddHistograms(x: Histogram, y: Histogram): Histogram
  {
    seq(OSPROF_BUCKET_NUMBER, i requires 0 <= i < OSPROF_BUCKET_NUMBER => x[i] + y[i])
  }

  /**
   * The value of the first record after stats_add(a, b): the seven counters
   * and the histogram summed, the larger maximum and the smaller minimum
   * latency kept, everything else taken from a.
   */
  function Merge(a: FlowStats, b: FlowStats): FlowStats
  {
    a.(count := a.count + b.count,
       rcount := a.rcount + b.rcount,
       wcount := a.wcount + b.wcount,
       bytes := a.bytes + b.bytes,
       rbytes := a.rbytes + b.rbytes,
       wbytes := a.wbytes + b.wbytes,
       totalLat := a.totalLat + b.totalLat,
       maxLat := Max(a.maxLat, b.maxLat),
       minLat := Min(a.minLat, b.minLat),
       distribution := AddHistograms(a.distribution, b.distribution))
  }

  /**
   * stats_add: adds b into a field by field and bucket by bucket; the
   * caller stores the returned record where a was.
   */
  method StatsAdd(a: FlowStats, b: FlowStats) returns (r: FlowStats)
    ensures forall c :: Get(r, c) == Get(a, c) + Get(b, c)
    ensures r.maxLat == Max(a.maxLat, b.maxLat) && r.maxLat >= a.maxLat && r.maxLat >= b.maxLat
    ensures r.minLat == Min(a.minLat, b.minLat) && r.minLat <= a.minLat && r.minLat <= b.minLat
    ensures forall i :: 0 <= i < OSPROF_BUCKET_NUMBER ==>
      r.distribution[i] == a.distribution[i] + b.distribution[i]
    ensures r.sysCpu == a.sysCpu && r.startTime == a.startTime && r.endTime == a.endTime
    ensures r == Merge(a, b)
  {
    r := a.(count := a.count + b.count,
            rcount := a.rcount + b.rcount,
            wcount := a.wcount + b.wcount,
            bytes := a.bytes + b.bytes,
            rbytes := a.rbytes + b.rbytes,
            wbytes := a.wbytes + b.wbytes,
            totalLat := a.totalLat + b.totalLat);
    if b.maxLat > r.maxLat {
      r := r.(maxLat := b.maxLat);
    }
    if b.minLat < r.minLat {
      r := r.(minLat := b.minLat);
    }
    var dist: seq<nat> := a.distribution;
    var i := 0;
    while i < OSPROF_BUCKET_NUMBER
      invariant 0 <= i <= OSPROF_BUCKET_NUMBER
      invariant |dist| == OSPROF_BUCKET_NUMBER
      invariant forall k :: 0 <= k < i ==> dist[k] == a.distribution[k] + b.distribution[k]
      invariant forall k :: i <= k < OSPROF_BUCKET_NUMBER ==> dist[k] == a.distribution[k]
    {
      dist := dist[i := dist[i] + b.distribution[i]];
      i := i + 1;
    }
    r := r.(distribution := dist);
    assert r.distribution == AddHistograms(a.distribution, b.distribution);
  }

  /** Two records agree on everything a merge computes (all but sysCpu and the times). */
  predicate SameAggregates(x: FlowStats, y: FlowStats)
  {
    (forall c :: Get(x, c) == Get(y, c)) &&
    x.maxLat == y.maxLat && x.minLat == y.minLat && x.distribution == y.distribution
  }

  /** On everything it computes, the merge is commutative. */
  lemma {:induction false} MergeCommutes(a: FlowStats, b: FlowStats)
    ensures SameAggregates(Merge(a, b), Merge(b, a))
  {
    assert AddHistograms(a.distribution, b.distribution) == AddHistograms(b.distribution, a.distribution);
  }

  /** The merge is associative, so a roll-up may be grouped in any way. */
  lemma {:induction false} MergeAssociates(a: FlowStats, b: FlowStats, c: FlowStats)
    ensures Merge(Merge(a, b), c) == Merge(a, Merge(b, c))
  {
    var l := AddHistograms(AddHistograms(a.distribution, b.distribution), c.distribution);
    var r := AddHistograms(a.distribution, AddHistograms(b.distribution, c.distribution));
    assert l == r by {
      forall i | 0 <= i < OSPROF_BUCKET_NUMBER ensures l[i] == r[i] { }
    }
  }

  /**
   * Two records merged into the same target in either order give the same
   * target: the order in which a traversal meets its sources does not matter.
   */
  lemma {:induction false} MergeRightCommutes(a: FlowStats, b: FlowStats, c: FlowStats)
    ensures Merge(Merge(a, b), c) == Merge(Merge(a, c), b)
  {
    var l := AddHistograms(AddHistograms(a.distribution, b.distribution), c.distribution);
    var r := AddHistograms(AddHistograms(a.distribution, c.distribution), b.distribution);
    assert l == r by {
      forall i | 0 <= i < OSPROF_BUCKET_NUMBER ensures l[i] == r[i] { }
    }
  }

  /**
   * A record with no observations and the ULLONG_MAX sentinel as its
   * minimum is a neutral element: merging it changes nothing.
   */
  lemma {:induction false} MergeIdleIsIdentity(a: FlowStats)
    requires a.minLat <= ULLONG_MAX
    ensures Merge(a, Idle()) == a
  {
    assert AddHistograms(a.distribution, EmptyHistogram()) == a.distribution;
  }

  /**
   * A record that is all zero, its minimum included, is not neutral: it
   * drives the target's minimum latency to 0 and changes nothing else.
   */
  lemma {:induction false} MergeZeroLowersMinimum(a: FlowStats)
    ensures Merge(a, Zero()) == a.(minLat := 0)
  {
    assert AddHistograms(a.distribution, EmptyHistogram()) == a.distribution;
  }
  // ---------------------------------------------------------------------
  // Record invariants the merge keeps
  // ---------------------------------------------------------------------

  /** The total of the histogram buckets. */
  function HSum(h: seq<nat>): nat
  {
    if |h| == 0 then 0 else HSum(h[..|h| - 1]) + h[|h| - 1]
  }

  /** A histogram whose buckets are the elementwise sums of two others totals the sum of their totals. */
  lemma {:induction false} HSumAdd(x: seq<nat>, y: seq<nat>, z: seq<nat>)
    requires |x| == |y| == |z|
    requires forall i :: 0 <= i < |z| ==> z[i] == x[i] + y[i]
    ensures HSum(z) == HSum(x) + HSum(y)
  {
    if |z| > 0 {
      var n := |z| - 1;
      HSumAdd(x[..n], y[..n], z[..n]);
    }
  }

  /** A histogram of empty buckets totals 0. */
  lemma {:induction false} HSumZeros(h: seq<nat>)
    requires forall i :: 0 <= i < |h| ==> h[i] == 0
    ensures HSum(h) == 0
  {
    if |h| > 0 {
      HSumZeros(h[..|h| - 1]);
    }
  }

  /** Every operation counted has landed in exactly one histogram bucket. */
  predicate HistogramMatchesCount(s: FlowStats)
  {
    HSum(s.distribution) == s.count
  }

  /** Every byte counted was read or written. */
  predicate BytesSplit(s: FlowStats)
  {
    s.bytes == s.rbytes + s.wbytes
  }

  /** A record with at least one operation has its minimum latency at or below its maximum. */
  predicate LatencyOrdered(s: FlowStats)
  {
    s.count > 0 ==> s.minLat <= s.maxLat
  }

  /** The three invariants of a populated record. */
  predicate WellFormed(s: FlowStats)
  {
    HistogramMatchesCount(s) && BytesSplit(s) && LatencyOrdered(s)
  }

  /** Merging two records whose histograms total their counts gives such a record. */
  lemma {:induction false} MergeKeepsHistogramTotal(a: FlowStats, b: FlowStats)
    requires HistogramMatchesCount(a) && HistogramMatchesCount(b)
    ensures HistogramMatchesCount(Merge(a, b))
  {
    HSumAdd(a.distribution, b.distribution, Merge(a, b).distribution);
  }

  /** Merging two records whose bytes split into reads and writes gives such a record. */
  lemma {:induction false} MergeKeepsBytesSplit(a: FlowStats, b: FlowStats)
    requires BytesSplit(a) && BytesSplit(b)
    ensures BytesSplit(Merge(a, b))
  {
  }

  /** Merging two records with ordered latency bounds gives such a record. */
  lemma {:induction false} MergeKeepsLatencyOrdered(a: FlowStats, b: FlowStats)
    requires LatencyOrdered(a) && LatencyOrdered(b)
    ensures LatencyOrdered(Merge(a, b))
  {
  }

  /** The zeroed record and the idle record both satisfy the invariants. */
  lemma {:induction false} ResetRecordsWellFormed()
    ensures WellFormed(Zero()) && WellFormed(Idle())
  {
    HSumZeros(EmptyHistogram());
  }

  /** The merge keeps all three invariants. */
  lemma {:induction false} MergeKeepsWellFormed(a: FlowStats, b: FlowStats)
    requires WellFormed(a) && WellFormed(b)
    ensures WellFormed(Merge(a, b))
  {
    MergeKeepsHistogramTotal(a, b);
  }
}
