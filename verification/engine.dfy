/**
 * The statistics engine of stats.c as a context object: the global table
 * globalstats, the flowop list with the fo_stats record of each flowop,
 * the abort and quiet flags of the shared memory region and the CPU-time
 * baseline, with stats_clear and the roll-up part of stats_snap as methods.
 */
module StatsEngine {
  import opened FlowStatsRecord
  import opened Rollup

  /** shm_f_abort value of a run that ended in error. */
  const FILEBENCH_ABORT_ERROR: int := 1

  /** How stats_snap returned: one of its two early returns, or after the roll-up. */
  datatype SnapOutcome =
    | NotCleared   // no global table yet: "stats snap" called before "stats clear"
    | RunAborted   // the run ended in error: no valid results
    | Snapped

  class StatsContext {
    /** globalstats: null until the first stats_clear, then FLOW_TYPES slots. */
    var globalStats: array?<FlowStats>
    /** The flowop list shm_flowoplist, in fo_next order. */
    var flowops: seq<Flowop>
    /** fo_stats of each flowop, parallel to flowops. */
    var opStats: array<FlowStats>
    /** shm_f_abort. */
    var abortFlag: int
    /** shm_bequiet: raised while the roll-up runs. */
    var bequiet: bool
    /** stats_cputime: the CPU-time sample taken by the last stats_clear. */
    var cpuTime: int

    ghost predicate Valid()
      reads this
    {
      && |flowops| == opStats.Length
      && (globalStats != null ==> globalStats.Length == FLOW_TYPES && globalStats != opStats)
      && forall i :: 0 <= i < |flowops| ==> flowops[i].flowType < FLOW_TYPES
    }

    /** A context over a flowop list whose records hold the given statistics, before any stats_clear. */
    constructor (fos: seq<Flowop>, stats: seq<FlowStats>, abort: int, cpu: int)
      requires |fos| == |stats|
      requires forall i :: 0 <= i < |fos| ==> fos[i].flowType < FLOW_TYPES
      ensures Valid() && fresh(opStats)
      ensures globalStats == null && flowops == fos && opStats[..] == stats
      ensures abortFlag == abort && !bequiet && cpuTime == cpu
    {
      globalStats := null;
      flowops := fos;
      opStats := new FlowStats[|stats|](i requires 0 <= i < |stats| => stats[i]);
      abortFlag := abort;
      bequiet := false;
      cpuTime := cpu;
    }

    /**
     * stats_clear: takes the CPU-time baseline, allocates the global table
     * if there is none, zeroes every slot and every flowop's record (minimum
     * latency included) and stamps the start time on slot 0.
     */
    method Clear(now: int, cpuNow: int)
      requires Valid()
      modifies this, globalStats, opStats
      ensures Valid()
      ensures old(globalStats) != null ==> globalStats == old(globalStats)
      ensures old(globalStats) == null ==> globalStats != null && fresh(globalStats)
      ensures globalStats != null
      ensures globalStats[0] == Zero().(startTime := now)
      ensures forall t :: 1 <= t < FLOW_TYPES ==> globalStats[t] == Zero()
      ensures forall i :: 0 <= i < opStats.Length ==> opStats[i] == Zero()
      ensures flowops == old(flowops) && opStats == old(opStats)
      ensures abortFlag == old(abortFlag) && bequiet == old(bequiet) && cpuTime == cpuNow
    {
      cpuTime := cpuNow;
      if globalStats == null {
        globalStats := new FlowStats[FLOW_TYPES](_ => Zero());
      }
      var table := globalStats;
      forall t | 0 <= t < table.Length {
        table[t] := Zero();
      }
      var i := 0;
      while i < opStats.Length
        invariant 0 <= i <= opStats.Length
        invariant forall k :: 0 <= k < i ==> opStats[k] == Zero()
        invariant forall t :: 0 <= t < table.Length ==> table[t] == Zero()
        modifies opStats
      {
        opStats[i] := Zero();
        i := i + 1;
      }
      table[0] := Zero();
      table[0] := table[0].(startTime := now);
    }

    /**
     * The reset loop of stats_snap: every master record becomes zero with
     * the ULLONG_MAX minimum; every other record is left as it was.
     */
    method ResetMasters()
      requires Valid()
      modifies opStats
      ensures forall i :: 0 <= i < opStats.Length ==>
        opStats[i] == if IsMaster(flowops[i]) then Idle() else old(opStats[i])
    {
      var i := 0;
      while i < opStats.Length
        invariant 0 <= i <= opStats.Length
        invariant forall k :: 0 <= k < i ==> opStats[k] == if IsMaster(flowops[k]) then Idle() else old(opStats[k])
        invariant forall k :: i <= k < opStats.Length ==> opStats[k] == old(opStats[k])
      {
        if IsMaster(flowops[i]) {
          opStats[i] := Zero();
          opStats[i] := opStats[i].(minLat := ULLONG_MAX);
        }
        i := i + 1;
      }
    }

    /**
     * The body of the roll-up loop for the flowop at position i: a runtime
     * flowop's record is merged into the slot of its type, then into the
     * global slot, then into the first master of its name if there is one;
     * any other flowop is skipped. Each aggregate moves from its value after
     * i flowops to its value after i + 1.
     */
    method RollUpStep(i: nat, ghost ss: seq<FlowStats>, ghost init: seq<FlowStats>)
      requires Valid() && globalStats != null && i < |flowops| && |ss| == |flowops| && |init| == FLOW_TYPES
      requires forall t :: 0 <= t < FLOW_TYPES ==> globalStats[t] == SlotAfter(flowops, ss, t, init[t], i)
      requires forall j :: 0 <= j < |flowops| ==>
        opStats[j] == if IsMaster(flowops[j]) then MasterAfter(flowops, ss, j, i) else ss[j]
      modifies globalStats, opStats
      ensures forall t :: 0 <= t < FLOW_TYPES ==> globalStats[t] == SlotAfter(flowops, ss, t, init[t], i + 1)
      ensures forall j :: 0 <= j < |flowops| ==>
        opStats[j] == if IsMaster(flowops[j]) then MasterAfter(flowops, ss, j, i + 1) else ss[j]
    {
      var f := flowops[i];
      if IsRuntime(f) {
        var table := globalStats;
        var s := opStats[i];
        var typed := StatsAdd(table[f.flowType], s);
        table[f.flowType] := typed;
        var global := StatsAdd(table[FLOW_TYPE_GLOBAL], s);
        table[FLOW_TYPE_GLOBAL] := global;
        match FindMaster(flowops, f.name) {
          case Some(m) =>
            var merged := StatsAdd(opStats[m], s);
            opStats[m] := merged;
          case None =>
        }
      }
    }

    /**
     * The roll-up loop of stats_snap over the whole flowop list, starting
     * from masters that hold the idle record the reset left.
     */
    method RollUp()
      requires Valid() && globalStats != null
      requires forall j :: 0 <= j < |flowops| && IsMaster(flowops[j]) ==> opStats[j] == Idle()
      modifies globalStats, opStats
      ensures forall t :: 0 <= t < FLOW_TYPES ==>
        globalStats[t] == SlotAfter(flowops, old(opStats[..]), t, old(globalStats[t]), |flowops|)
      ensures forall j :: 0 <= j < |flowops| ==>
        opStats[j] == if IsMaster(flowops[j]) then MasterAfter(flowops, old(opStats[..]), j, |flowops|) else old(opStats[j])
    {
      ghost var ss := opStats[..];
      ghost var init := globalStats[..];
      var i := 0;
      while i < |flowops|
        invariant 0 <= i <= |flowops|
        invariant forall t :: 0 <= t < FLOW_TYPES ==> globalStats[t] == SlotAfter(flowops, ss, t, init[t], i)
        invariant forall j :: 0 <= j < |flowops| ==>
          opStats[j] == if IsMaster(flowops[j]) then MasterAfter(flowops, ss, j, i) else ss[j]
      {
        RollUpStep(i, ss, init);
        i := i + 1;
      }
    }

    /**
     * The table reset of stats_snap: every slot zeroed, slot 0 keeping its
     * start time and getting the end time now.
     */
    method ResetTable(now: int)
      requires Valid() && globalStats != null
      modifies globalStats
      ensures forall t :: 0 <= t < FLOW_TYPES ==> globalStats[t] == SlotStart(t, old(globalStats[0].startTime), now)
    {
      var table := globalStats;
      var origStart := table[0].startTime;
      forall t | 0 <= t < table.Length {
        table[t] := Zero();
      }
      table[0] := table[0].(startTime := origStart);
      table[0] := table[0].(endTime := now);
    }

    /**
     * stats_snap up to its report: returns at once, changing nothing, when
     * there is no global table yet or when the run ended in error (the
     * table is checked first); otherwise raises the quiet flag, resets the
     * table and the masters, rolls the runtime records up and lowers the
     * flag.
     */
    method Snap(now: int) returns (outcome: SnapOutcome)
      requires Valid()
      modifies this, globalStats, opStats
      ensures Valid()
      ensures globalStats == old(globalStats) && flowops == old(flowops) && opStats == old(opStats)
      ensures abortFlag == old(abortFlag) && cpuTime == old(cpuTime)
      ensures old(globalStats) == null ==> outcome == NotCleared
      ensures old(globalStats) != null && abortFlag == FILEBENCH_ABORT_ERROR ==> outcome == RunAborted
      ensures outcome == Snapped <==> old(globalStats) != null && abortFlag != FILEBENCH_ABORT_ERROR
      ensures outcome != Snapped ==>
        bequiet == old(bequiet) && unchanged(opStats) && (globalStats != null ==> unchanged(globalStats))
      ensures outcome == Snapped ==> !bequiet
      ensures outcome == Snapped ==> forall t :: 0 <= t < FLOW_TYPES ==>
        globalStats[t] == SlotAfter(flowops, old(opStats[..]), t, SlotStart(t, old(globalStats[0].startTime), now), |flowops|)
      ensures outcome == Snapped ==> forall j :: 0 <= j < |flowops| ==>
        opStats[j] == if IsMaster(flowops[j]) then MasterAfter(flowops, old(opStats[..]), j, |flowops|) else old(opStats[j])
    {
      if globalStats == null {
        return NotCleared;
      }
      if abortFlag == FILEBENCH_ABORT_ERROR {
        return RunAborted;
      }
      bequiet := true;
      ghost var start := globalStats[0].startTime;
      ghost var ss := opStats[..];
      ResetTable(now);
      ResetMasters();
      ghost var reset := opStats[..];
      assert forall i :: 0 <= i < |flowops| && IsRuntime(flowops[i]) ==> reset[i] == ss[i];
      ghost var table := globalStats[..];
      assert forall t :: 0 <= t < FLOW_TYPES ==> table[t] == SlotStart(t, start, now);
      RollUp();
      forall t | 0 <= t < FLOW_TYPES {
        IgnoresNonRuntime(flowops, reset, ss, t, table[t], 0, |flowops|);
      }
      forall j | 0 <= j < |flowops| {
        IgnoresNonRuntime(flowops, reset, ss, 0, Zero(), j, |flowops|);
      }
      bequiet := false;
      outcome := Snapped;
    }
  }
}
