/**
 * What the roll-up of stats_snap computes, as functions of the flowop list:
 * which records feed each global-table slot and each master flowop, the
 * value an aggregate holds after the traversal has passed the first n
 * flowops, and the theorems that make each aggregate the sum (and the
 * maximum and minimum) of its constituent runtime records.
 */
module Rollup {
  import opened FlowStatsRecord

  /** fo_instance of the flowop that holds the rolled-up statistics of a name. */
  const FLOW_MASTER: int := -1
  /** fo_instance of a flowop template; instances at or below it are never rolled up. */
  const FLOW_DEFINITION: int := 0
  /** Number of slots of the global table (one per flowop type). */
  const FLOW_TYPES: nat := 6
  /** The slot that sums every rolled-up flowop. */
  const FLOW_TYPE_GLOBAL: nat := 0

  datatype Option<T> = None | Some(value: T)

  /** The parts of a flowop_t that the roll-up reads besides its fo_stats. */
  datatype Flowop = Flowop(name: string, instance: int, flowType: nat)

  /** A running instance: the only kind whose statistics are rolled up (never a master). */
  predicate IsRuntime(f: Flowop)
  {
    f.instance > FLOW_DEFINITION
  }

  predicate IsMaster(f: Flowop)
  {
    f.instance == FLOW_MASTER
  }

  predicate IsMasterNamed(f: Flowop, name: string)
  {
    f.name == name && IsMaster(f)
  }

  /**
   * flowop_find_one(name, FLOW_MASTER): the position of the first master
   * flowop of the list with that name, if there is one.
   */
  function FindMaster(fos: seq<Flowop>, name: string): (r: Option<nat>)
    ensures r.Some? ==> r.value < |fos| && IsMasterNamed(fos[r.value], name)
    ensures r.Some? ==> forall k :: 0 <= k < r.value ==> !IsMasterNamed(fos[k], name)
    ensures r.None? ==> forall k :: 0 <= k < |fos| ==> !IsMasterNamed(fos[k], name)
    decreases |fos|
  {
    if fos == [] then None
    else if IsMasterNamed(fos[0], name) then Some(0)
    else match FindMaster(fos[1..], name)
      case None => None
      case Some(j) => Some(j + 1)
  }

  // ---------------------------------------------------------------------
  // Which records feed which aggregate
  // ---------------------------------------------------------------------

  /**
   * A set of constituent records: the runtime flowops of one type, all
   * runtime flowops, those whose master lookup yields position j, or those
   * with a given name.
   */
  datatype Selection = OfType(t: nat) | AllRuntime | MasterAt(j: nat) | Named(name: string)

  /** Whether the record of f is a constituent of the selection. */
  predicate Feeds(fos: seq<Flowop>, f: Flowop, sel: Selection)
  {
    IsRuntime(f) &&
    match sel
    case OfType(t) => f.flowType == t
    case AllRuntime => true
    case MasterAt(j) => FindMaster(fos, f.name) == Some(j)
    case Named(name) => f.name == name
  }

  /** The sum of counter c over the selected records among the first n. */
  function SumWhere(fos: seq<Flowop>, ss: seq<FlowStats>, sel: Selection, c: Counter, n: nat): nat
    requires |ss| == |fos| && n <= |fos|
  {
    if n == 0 then 0
    else SumWhere(fos, ss, sel, c, n - 1) + (if Feeds(fos, fos[n - 1], sel) then Get(ss[n - 1], c) else 0)
  }

  /** The sum of histogram bucket k over the selected records among the first n. */
  function BucketWhere(fos: seq<Flowop>, ss: seq<FlowStats>, sel: Selection, k: nat, n: nat): nat
    requires |ss| == |fos| && n <= |fos| && k < OSPROF_BUCKET_NUMBER
  {
    if n == 0 then 0
    else BucketWhere(fos, ss, sel, k, n - 1) + (if Feeds(fos, fos[n - 1], sel) then ss[n - 1].distribution[k] else 0)
  }

  /** The largest maximum latency of the selected records among the first n, 0 when none. */
  function MaxWhere(fos: seq<Flowop>, ss: seq<FlowStats>, sel: Selection, n: nat): nat
    requires |ss| == |fos| && n <= |fos|
  {
    if n == 0 then 0
    else
      var prev := MaxWhere(fos, ss, sel, n - 1);
      if Feeds(fos, fos[n - 1], sel) then Max(prev, ss[n - 1].maxLat) else prev
  }

  /** The smallest minimum latency of the selected records among the first n, ULLONG_MAX when none. */
  function MinWhere(fos: seq<Flowop>, ss: seq<FlowStats>, sel: Selection, n: nat): nat
    requires |ss| == |fos| && n <= |fos|
  {
    if n == 0 then ULLONG_MAX
    else
      var prev := MinWhere(fos, ss, sel, n - 1);
      if Feeds(fos, fos[n - 1], sel) then Min(prev, ss[n - 1].minLat) else prev
  }

  // ---------------------------------------------------------------------
  // The aggregates after the traversal has passed the first n flowops
  // ---------------------------------------------------------------------

  /** A global-table slot after the reset of stats_snap: zero, slot 0 keeping its start and getting the end time. */
  function SlotStart(t: nat, start: int, now: int): FlowStats
  {
    if t == 0 then Zero().(startTime := start, endTime := now) else Zero()
  }

  /**
   * Slot t of the global table after the roll-up has passed the first n
   * flowops: each runtime flowop is merged into the slot of its type and
   * then into the global slot, so a flowop whose type is the global one is
   * merged into that slot twice.
   */
  function SlotAfter(fos: seq<Flowop>, ss: seq<FlowStats>, t: nat, init: FlowStats, n: nat): FlowStats
    requires |ss| == |fos| && n <= |fos|
  {
    if n == 0 then init
    else
      var prev := SlotAfter(fos, ss, t, init, n - 1);
      var f, s := fos[n - 1], ss[n - 1];
      var typed := if Feeds(fos, f, OfType(t)) then Merge(prev, s) else prev;
      if IsRuntime(f) && t == FLOW_TYPE_GLOBAL then Merge(typed, s) else typed
  }

  /** The record of the master at position j after the roll-up has passed the first n flowops. */
  function MasterAfter(fos: seq<Flowop>, ss: seq<FlowStats>, j: nat, n: nat): FlowStats
    requires |ss| == |fos| && n <= |fos|
  {
    if n == 0 then Idle()
    else
      var prev := MasterAfter(fos, ss, j, n - 1);
      if Feeds(fos, fos[n - 1], MasterAt(j)) then Merge(prev, ss[n - 1]) else prev
  }

  /** The part of slot t's constituents that the global slot adds on top of the typed ones. */
  function Extra(t: nat, x: nat): nat
  {
    if t == FLOW_TYPE_GLOBAL then x else 0
  }

  // ---------------------------------------------------------------------
  // Each aggregate is the sum of its constituents
  // ---------------------------------------------------------------------

  /**
   * Every counter of slot t is its initial value plus the sum over the
   * runtime records of type t and, for the global slot, over all runtime
   * records once more.
   */
  lemma {:induction false} SlotCounter(fos: seq<Flowop>, ss: seq<FlowStats>, t: nat, init: FlowStats, c: Counter, n: nat)
    requires |ss| == |fos| && n <= |fos|
    ensures Get(SlotAfter(fos, ss, t, init, n), c) ==
      Get(init, c) + SumWhere(fos, ss, OfType(t), c, n) + Extra(t, SumWhere(fos, ss, AllRuntime, c, n))
  {
    if n > 0 {
      SlotCounter(fos, ss, t, init, c, n - 1);
    }
  }

  /** Every histogram bucket of slot t is the initial bucket plus the same sums, bucket by bucket. */
  lemma {:induction false} SlotBucket(fos: seq<Flowop>, ss: seq<FlowStats>, t: nat, init: FlowStats, k: nat, n: nat)
    requires |ss| == |fos| && n <= |fos| && k < OSPROF_BUCKET_NUMBER
    ensures SlotAfter(fos, ss, t, init, n).distribution[k] ==
      init.distribution[k] + BucketWhere(fos, ss, OfType(t), k, n) + Extra(t, BucketWhere(fos, ss, AllRuntime, k, n))
  {
    if n > 0 {
      SlotBucket(fos, ss, t, init, k, n - 1);
    }
  }

  /**
   * The maximum latency of slot t joins the initial one with those of its
   * constituents; the minimum latency never rises above the initial one;
   * sysCpu and both timestamps stay those of the initial record.
   */
  lemma {:induction false} SlotLatency(fos: seq<Flowop>, ss: seq<FlowStats>, t: nat, init: FlowStats, n: nat)
    requires |ss| == |fos| && n <= |fos|
    ensures SlotAfter(fos, ss, t, init, n).maxLat ==
      Max(Max(init.maxLat, MaxWhere(fos, ss, OfType(t), n)), Extra(t, MaxWhere(fos, ss, AllRuntime, n)))
    ensures SlotAfter(fos, ss, t, init, n).minLat <= init.minLat
    ensures SlotAfter(fos, ss, t, init, n).sysCpu == init.sysCpu
    ensures SlotAfter(fos, ss, t, init, n).startTime == init.startTime
    ensures SlotAfter(fos, ss, t, init, n).endTime == init.endTime
  {
    if n > 0 {
      SlotLatency(fos, ss, t, init, n - 1);
    }
  }

  /** Every counter of the master at j is the sum over the records whose lookup yields j. */
  lemma {:induction false} MasterCounter(fos: seq<Flowop>, ss: seq<FlowStats>, j: nat, c: Counter, n: nat)
    requires |ss| == |fos| && n <= |fos|
    ensures Get(MasterAfter(fos, ss, j, n), c) == SumWhere(fos, ss, MasterAt(j), c, n)
  {
    if n > 0 {
      MasterCounter(fos, ss, j, c, n - 1);
    }
  }

  lemma {:induction false} MasterBucket(fos: seq<Flowop>, ss: seq<FlowStats>, j: nat, k: nat, n: nat)
    requires |ss| == |fos| && n <= |fos| && k < OSPROF_BUCKET_NUMBER
    ensures MasterAfter(fos, ss, j, n).distribution[k] == BucketWhere(fos, ss, MasterAt(j), k, n)
  {
    if n > 0 {
      MasterBucket(fos, ss, j, k, n - 1);
    }
  }

  /**
   * The latency bounds of the master at j are the largest maximum and the
   * smallest minimum of its constituents (0 and ULLONG_MAX when it has
   * none); its sysCpu and timestamps stay 0.
   */
  lemma {:induction false} MasterLatency(fos: seq<Flowop>, ss: seq<FlowStats>, j: nat, n: nat)
    requires |ss| == |fos| && n <= |fos|
    ensures MasterAfter(fos, ss, j, n).maxLat == MaxWhere(fos, ss, MasterAt(j), n)
    ensures MasterAfter(fos, ss, j, n).minLat == MinWhere(fos, ss, MasterAt(j), n)
    ensures MasterAfter(fos, ss, j, n).sysCpu == 0
    ensures MasterAfter(fos, ss, j, n).startTime == 0 && MasterAfter(fos, ss, j, n).endTime == 0
  {
    if n > 0 {
      MasterLatency(fos, ss, j, n - 1);
    }
  }

  // ---------------------------------------------------------------------
  // Selections
  // ---------------------------------------------------------------------

  /** Two selections that pick the same records among the first n give the same sums and bounds. */
  lemma {:induction false} SelectionsAgree(fos: seq<Flowop>, ss: seq<FlowStats>, a: Selection, b: Selection, n: nat)
    requires |ss| == |fos| && n <= |fos|
    requires forall i :: 0 <= i < n ==> (Feeds(fos, fos[i], a) <==> Feeds(fos, fos[i], b))
    ensures forall c :: SumWhere(fos, ss, a, c, n) == SumWhere(fos, ss, b, c, n)
    ensures forall k :: 0 <= k < OSPROF_BUCKET_NUMBER ==> BucketWhere(fos, ss, a, k, n) == BucketWhere(fos, ss, b, k, n)
    ensures MaxWhere(fos, ss, a, n) == MaxWhere(fos, ss, b, n)
    ensures MinWhere(fos, ss, a, n) == MinWhere(fos, ss, b, n)
  {
    if n > 0 {
      SelectionsAgree(fos, ss, a, b, n - 1);
    }
  }

  /** The largest maximum over a selection is no larger than over a selection that contains it. */
  lemma {:induction false} MaxWhereMonotone(fos: seq<Flowop>, ss: seq<FlowStats>, a: Selection, b: Selection, n: nat)
    requires |ss| == |fos| && n <= |fos|
    requires forall i :: 0 <= i < n ==> Feeds(fos, fos[i], a) ==> Feeds(fos, fos[i], b)
    ensures MaxWhere(fos, ss, a, n) <= MaxWhere(fos, ss, b, n)
  {
    if n > 0 {
      MaxWhereMonotone(fos, ss, a, b, n - 1);
    }
  }

  /** A selected record bounds the smallest minimum of its selection from above. */
  lemma {:induction false} MinWhereBelow(fos: seq<Flowop>, ss: seq<FlowStats>, sel: Selection, i: nat, n: nat)
    requires |ss| == |fos| && i < n <= |fos| && Feeds(fos, fos[i], sel)
    ensures MinWhere(fos, ss, sel, n) <= ss[i].minLat
  {
    if i < n - 1 {
      MinWhereBelow(fos, ss, sel, i, n - 1);
    }
  }

  /**
   * The records that reach the master at position j: every runtime record
   * of its name when j is the first master of that name, and none when an
   * earlier master of the same name shadows it.
   */
  lemma {:induction false} MasterSelection(fos: seq<Flowop>, j: nat, f: Flowop)
    requires j < |fos| && IsMaster(fos[j])
    ensures FindMaster(fos, fos[j].name) == Some(j) ==>
      (Feeds(fos, f, MasterAt(j)) <==> Feeds(fos, f, Named(fos[j].name)))
    ensures FindMaster(fos, fos[j].name) != Some(j) ==> !Feeds(fos, f, MasterAt(j))
  {
    if Feeds(fos, f, MasterAt(j)) {
      assert IsMasterNamed(fos[j], f.name);
    }
  }

  /** A master that no record reaches keeps the idle record of the reset. */
  lemma {:induction false} UnfedMasterStaysIdle(fos: seq<Flowop>, ss: seq<FlowStats>, j: nat, n: nat)
    requires |ss| == |fos| && n <= |fos|
    requires forall i :: 0 <= i < n ==> !Feeds(fos, fos[i], MasterAt(j))
    ensures MasterAfter(fos, ss, j, n) == Idle()
  {
    if n > 0 {
      UnfedMasterStaysIdle(fos, ss, j, n - 1);
    }
  }

  /**
   * The records of flowops that are not runtime instances never reach an
   * aggregate: two statistics lists that agree on the runtime flowops give
   * the same slots and the same masters.
   */
  lemma {:induction false} IgnoresNonRuntime(fos: seq<Flowop>, ss: seq<FlowStats>, ss': seq<FlowStats>,
                                             t: nat, init: FlowStats, j: nat, n: nat)
    requires |ss| == |fos| && |ss'| == |fos| && n <= |fos|
    requires forall i :: 0 <= i < |fos| && IsRuntime(fos[i]) ==> ss[i] == ss'[i]
    ensures SlotAfter(fos, ss, t, init, n) == SlotAfter(fos, ss', t, init, n)
    ensures MasterAfter(fos, ss, j, n) == MasterAfter(fos, ss', j, n)
  {
    if n > 0 {
      IgnoresNonRuntime(fos, ss, ss', t, init, j, n - 1);
    }
  }

  // ---------------------------------------------------------------------
  // The aggregates stats_snap leaves behind
  // ---------------------------------------------------------------------

  /**
   * After the roll-up, slot t holds the sums of the runtime records of type
   * t (and, in the global slot, of every runtime record once more), the
   * largest maximum latency among them and a minimum latency of 0, since
   * the slot started from a zeroed record; only slot 0 carries timestamps.
   */
  lemma {:induction false} SnapSlot(fos: seq<Flowop>, ss: seq<FlowStats>, t: nat, start: int, now: int)
    requires |ss| == |fos|
    ensures var r, n := SlotAfter(fos, ss, t, SlotStart(t, start, now), |fos|), |fos|;
      && (forall c :: Get(r, c) == SumWhere(fos, ss, OfType(t), c, n) + Extra(t, SumWhere(fos, ss, AllRuntime, c, n)))
      && (forall k :: 0 <= k < OSPROF_BUCKET_NUMBER ==>
            r.distribution[k] == BucketWhere(fos, ss, OfType(t), k, n) + Extra(t, BucketWhere(fos, ss, AllRuntime, k, n)))
      && r.maxLat == (if t == FLOW_TYPE_GLOBAL then MaxWhere(fos, ss, AllRuntime, n) else MaxWhere(fos, ss, OfType(t), n))
      && r.minLat == 0
      && r.sysCpu == 0
      && r.startTime == (if t == 0 then start else 0)
      && r.endTime == (if t == 0 then now else 0)
  {
    var init, n := SlotStart(t, start, now), |fos|;
    forall c {
      SlotCounter(fos, ss, t, init, c, n);
    }
    forall k | 0 <= k < OSPROF_BUCKET_NUMBER {
      SlotBucket(fos, ss, t, init, k, n);
    }
    SlotLatency(fos, ss, t, init, n);
    if t == FLOW_TYPE_GLOBAL {
      MaxWhereMonotone(fos, ss, OfType(t), AllRuntime, n);
    }
  }

  /**
   * After the roll-up, the first master of a name holds the sums, the
   * largest maximum and the smallest minimum latency (ULLONG_MAX when none)
   * of the runtime records of that name; a later master of the same name
   * is left as the idle record.
   */
  lemma {:induction false} SnapMaster(fos: seq<Flowop>, ss: seq<FlowStats>, j: nat)
    requires |ss| == |fos| && j < |fos| && IsMaster(fos[j])
    ensures var r, n, named := MasterAfter(fos, ss, j, |fos|), |fos|, Named(fos[j].name);
      if FindMaster(fos, fos[j].name) == Some(j) then
        && (forall c :: Get(r, c) == SumWhere(fos, ss, named, c, n))
        && (forall k :: 0 <= k < OSPROF_BUCKET_NUMBER ==> r.distribution[k] == BucketWhere(fos, ss, named, k, n))
        && r.maxLat == MaxWhere(fos, ss, named, n)
        && r.minLat == MinWhere(fos, ss, named, n)
        && r.sysCpu == 0 && r.startTime == 0 && r.endTime == 0
      else r == Idle()
  {
    var n := |fos|;
    forall i | 0 <= i < n {
      MasterSelection(fos, j, fos[i]);
    }
    if FindMaster(fos, fos[j].name) == Some(j) {
      SelectionsAgree(fos, ss, MasterAt(j), Named(fos[j].name), n);
      forall c {
        MasterCounter(fos, ss, j, c, n);
      }
      forall k | 0 <= k < OSPROF_BUCKET_NUMBER {
        MasterBucket(fos, ss, j, k, n);
      }
      MasterLatency(fos, ss, j, n);
    } else {
      UnfedMasterStaysIdle(fos, ss, j, n);
    }
  }

  /**
   * A runtime flowop whose record still has the minimum latency 0 that
   * stats_clear leaves drives its master's minimum latency to 0.
   */
  lemma {:induction false} ZeroMinimumReachesMaster(fos: seq<Flowop>, ss: seq<FlowStats>, i: nat, j: nat)
    requires |ss| == |fos| && i < |fos| && IsRuntime(fos[i]) && ss[i].minLat == 0
    requires FindMaster(fos, fos[i].name) == Some(j)
    ensures MasterAfter(fos, ss, j, |fos|).minLat == 0
  {
    MinWhereBelow(fos, ss, MasterAt(j), i, |fos|);
    MasterLatency(fos, ss, j, |fos|);
  }

  /**
   * A snapshot taken right after stats_clear, when every record is all
   * zero, leaves each slot as the reset made it.
   */
  lemma {:induction false} ClearedSlotsStay(fos: seq<Flowop>, ss: seq<FlowStats>, t: nat, start: int, now: int, n: nat)
    requires |ss| == |fos| && n <= |fos|
    requires forall i :: 0 <= i < |fos| ==> ss[i] == Zero()
    ensures SlotAfter(fos, ss, t, SlotStart(t, start, now), n) == SlotStart(t, start, now)
  {
    if n > 0 {
      ClearedSlotsStay(fos, ss, t, start, now, n - 1);
      var init := SlotStart(t, start, now);
      MergeZeroLowersMinimum(init);
      assert ss[n - 1] == Zero();
      assert Merge(init, ss[n - 1]) == init;
    }
  }

  /**
   * Right after stats_clear, a master that some record reaches becomes the
   * all-zero record, its minimum latency 0 rather than ULLONG_MAX; a master
   * that no record reaches stays idle.
   */
  lemma {:induction false} ClearedMasters(fos: seq<Flowop>, ss: seq<FlowStats>, j: nat, n: nat)
    requires |ss| == |fos| && n <= |fos|
    requires forall i :: 0 <= i < |fos| ==> ss[i] == Zero()
    ensures MasterAfter(fos, ss, j, n) ==
      if exists i :: 0 <= i < n && Feeds(fos, fos[i], MasterAt(j)) then Zero() else Idle()
  {
    if n > 0 {
      ClearedMasters(fos, ss, j, n - 1);
      assert ss[n - 1] == Zero();
      if Feeds(fos, fos[n - 1], MasterAt(j)) {
        var prev := MasterAfter(fos, ss, j, n - 1);
        assert prev == Idle() || prev == Zero();
        MergeZeroLowersMinimum(prev);
        assert prev.(minLat := 0) == Zero();
        assert exists i :: 0 <= i < n && Feeds(fos, fos[i], MasterAt(j));
      } else if exists i :: 0 <= i < n && Feeds(fos, fos[i], MasterAt(j)) {
        var i :| 0 <= i < n && Feeds(fos, fos[i], MasterAt(j));
        assert i < n - 1;
      }
    }
  }
  // ---------------------------------------------------------------------
  // The record invariants carry over to every aggregate
  // ---------------------------------------------------------------------

  /** Every runtime record of the list satisfies the record invariants. */
  predicate RuntimeWellFormed(fos: seq<Flowop>, ss: seq<FlowStats>)
    requires |ss| == |fos|
  {
    forall i :: 0 <= i < |fos| && IsRuntime(fos[i]) ==> WellFormed(ss[i])
  }

  /**
   * When the runtime records and the slot's initial record satisfy the
   * invariants (histogram total equals count, bytes split into reads and
   * writes, ordered latency bounds), so does the slot after any prefix.
   */
  lemma {:induction false} SlotKeepsWellFormed(fos: seq<Flowop>, ss: seq<FlowStats>, t: nat, init: FlowStats, n: nat)
    requires |ss| == |fos| && n <= |fos|
    requires RuntimeWellFormed(fos, ss) && WellFormed(init)
    ensures WellFormed(SlotAfter(fos, ss, t, init, n))
  {
    if n > 0 {
      SlotKeepsWellFormed(fos, ss, t, init, n - 1);
      var prev, f, s := SlotAfter(fos, ss, t, init, n - 1), fos[n - 1], ss[n - 1];
      if IsRuntime(f) {
        MergeKeepsWellFormed(prev, s);
        MergeKeepsWellFormed(Merge(prev, s), s);
      }
    }
  }

  /** When the runtime records satisfy the invariants, so does every master after any prefix. */
  lemma {:induction false} MasterKeepsWellFormed(fos: seq<Flowop>, ss: seq<FlowStats>, j: nat, n: nat)
    requires |ss| == |fos| && n <= |fos|
    requires RuntimeWellFormed(fos, ss)
    ensures WellFormed(MasterAfter(fos, ss, j, n))
  {
    if n == 0 {
      ResetRecordsWellFormed();
    } else {
      MasterKeepsWellFormed(fos, ss, j, n - 1);
      if Feeds(fos, fos[n - 1], MasterAt(j)) {
        MergeKeepsWellFormed(MasterAfter(fos, ss, j, n - 1), ss[n - 1]);
      }
    }
  }

  /** The reset slots satisfy the invariants: they differ from the zeroed record only in timestamps. */
  lemma {:induction false} SlotStartWellFormed(t: nat, start: int, now: int)
    ensures WellFormed(SlotStart(t, start, now))
  {
    var r := SlotStart(t, start, now);
    HSumZeros(r.distribution);
  }

  /**
   * After stats_snap, every slot and every master whose runtime records
   * satisfy the invariants satisfies them too: the histogram buckets of an
   * aggregate total its operation count.
   */
  lemma {:induction false} SnapKeepsWellFormed(fos: seq<Flowop>, ss: seq<FlowStats>, t: nat, start: int, now: int, j: nat)
    requires |ss| == |fos| && RuntimeWellFormed(fos, ss)
    ensures WellFormed(SlotAfter(fos, ss, t, SlotStart(t, start, now), |fos|))
    ensures WellFormed(MasterAfter(fos, ss, j, |fos|))
  {
    SlotStartWellFormed(t, start, now);
    SlotKeepsWellFormed(fos, ss, t, SlotStart(t, start, now), |fos|);
    MasterKeepsWellFormed(fos, ss, j, |fos|);
  }
}
