# filebench statistics roll-up, modelled in Dafny

filebench keeps one `struct flowstats` record per flowop (`fo_stats`). It
also keeps a global table `globalstats` with one slot per flowop type, where
slot `FLOW_TYPE_GLOBAL` sums everything. `stats.c` maintains both with three
routines:

- `stats_add` merges one record into another. It sums seven counters and
  the latency histogram, keeps the larger maximum latency and the smaller
  minimum latency, and leaves the CPU time and both timestamps alone.
- `stats_snap` checks two guards: the table must exist and the run must not
  have ended in error. It then raises the quiet flag and zeroes the table,
  keeping slot 0's start time and stamping its end time. It resets every
  `FLOW_MASTER` flowop to zero with the `ULLONG_MAX` minimum. It then walks
  the flowop list, merging each running instance (`fo_instance >
  FLOW_DEFINITION`) into three places: the slot of its type, the global
  slot, and the first master of its name. Finally it lowers the flag.
- `stats_clear` allocates the table on first use. It zeroes every slot and
  every flowop record, the minimum latency included, and stamps slot 0's
  start time.

The project has three modules:

- `FlowStatsRecord` (`flowstats.dfy`): the record as a value datatype, the
  merge as the function `Merge`, and `StatsAdd`, a method that walks the
  histogram bucket by bucket and is proved equal to `Merge`. It also holds
  the merge algebra: commutativity, associativity, order independence, the
  `ULLONG_MAX` sentinel as a neutral element, and a zero minimum as an
  absorbing one. Finally it states the invariants of a populated record
  (`WellFormed`): the histogram buckets total the operation count, the bytes
  split into read and written bytes, and a record with operations has its
  minimum latency at or below its maximum. The merge keeps all three.
- `Rollup` (`rollup.dfy`): the flowop descriptors and the master lookup.
  - `SlotAfter` and `MasterAfter` give the value of each aggregate after the
    walk has passed the first `n` flowops.
  - `SumWhere`, `BucketWhere`, `MaxWhere` and `MinWhere` are sums and bounds
    over a selection of constituent records.
  - The lemmas prove that every aggregate is exactly the sum, maximum and
    minimum of its constituents, and that every aggregate keeps the record
    invariants when its constituents have them.
- `StatsEngine` (`engine.dfy`): the context object `StatsContext`. Its fields
  are the table (an `array?`), the flowop list, a parallel array of the
  flowops' records, the abort and quiet flags, and the CPU baseline.
  `Clear`, `Snap`, `ResetTable`, `ResetMasters`, `RollUp` and `RollUpStep`
  are methods. `Clear`, `ResetMasters` and `RollUp` walk their arrays with
  loops and carry loop invariants; `ResetTable` clears the table with a
  `forall` statement, `RollUpStep` is the body of the roll-up loop and `Snap`
  calls the others. Each is proved against the `Rollup` functions. The
  constructor only sets up a context before any `stats_clear`, with no
  table yet.

The values of `FLOW_MASTER` (-1), `FLOW_DEFINITION` (0), `FLOW_TYPES` (6),
`FLOW_TYPE_GLOBAL` (0), `OSPROF_BUCKET_NUMBER` (64), `FILEBENCH_ABORT_ERROR`
(1) and `ULLONG_MAX` (2^64-1) are defined in filebench headers that are not
part of this model. The constants here use filebench's values. The proofs
depend only on three facts: a master is never a running instance
(`FLOW_MASTER <= FLOW_DEFINITION`), the global slot is a valid slot, and the
sentinel bounds every minimum.

Two behaviours of the code are worth knowing:

- `stats_clear` memsets every record (`stats.c:455`), so its minimum latency
  becomes 0. It is not the `ULLONG_MAX` sentinel that `stats_snap` gives
  masters (`stats.c:312`). `ZeroMinimumReachesMaster` and `ClearedMasters`
  show the consequence: a master fed by a record still in that state
  reports a minimum latency of 0, even when no operation was counted.
- The CPU time per operation in the IO summary (`stats.c:422`) reads
  `fs_syscpu` of the IO slot. `stats_snap` zeroes that field with the rest
  of the table (`stats.c:298`) and `stats_add` never writes it, so the
  figure is always 0. `SnapSlot` proves `sysCpu == 0` for every slot. The
  sample `stats_snap` takes at `stats.c:357` is assigned and never read.

## Model

| member | source | states |
|---|---|---|
| FlowStatsRecord.StatsAdd | stats.c:233-254 | Each of the seven counters of the result is a's plus b's. The maximum latency is the larger of the two and the minimum the smaller, and each bounds both inputs. Every histogram bucket is the elementwise sum. CPU time and both timestamps are a's. The whole result equals `Merge(a, b)`. |
| FlowStatsRecord.MergeCommutes | stats.c:238-253 | Merging b into a and a into b agree on every counter, both latency bounds and the histogram. |
| FlowStatsRecord.MergeAssociates | stats.c:238-253 | `Merge(Merge(a, b), c) == Merge(a, Merge(b, c))`, so a roll-up may be grouped in any way. |
| FlowStatsRecord.MergeRightCommutes | stats.c:238-253 | Merging b then c into a gives the same record as merging c then b, so the traversal order does not matter. |
| FlowStatsRecord.MergeIdleIsIdentity | stats.c:246-253 | Merging the all-zero record whose minimum is `ULLONG_MAX` leaves any record unchanged. |
| FlowStatsRecord.MergeZeroLowersMinimum | stats.c:249-250 | Merging the all-zero record whose minimum is 0 drives the target's minimum to 0 and changes nothing else. |
| Rollup.FindMaster | stats.c:331 | The lookup of the master of a name returns the first position holding a `FLOW_MASTER` flowop of that name. It returns none exactly when no such flowop exists. |
| Rollup.SlotCounter | stats.c:322-329 | Each counter of slot t after n flowops is its initial value plus the sum over runtime flowops of type t. For the global slot it adds the sum over all runtime flowops once more. Non-runtime flowops add nothing. |
| Rollup.SlotBucket | stats.c:322-329 | Each histogram bucket of slot t is its initial bucket plus the same two sums, bucket by bucket. |
| Rollup.SlotLatency | stats.c:322-329 | A slot's maximum latency is the join of its initial maximum with its constituents' maxima. Its minimum never rises above the initial one. CPU time and timestamps stay the initial ones. |
| Rollup.MasterCounter | stats.c:331-335 | Each counter of the master at j is the sum over the runtime records whose master lookup yields j. |
| Rollup.MasterBucket | stats.c:331-335 | Each histogram bucket of the master at j is the sum of that bucket over the same records. |
| Rollup.MasterLatency | stats.c:307-335 | A master's maximum and minimum latency are the largest maximum and smallest minimum of its constituents (0 and `ULLONG_MAX` when it has none). Its CPU time and timestamps stay 0. |
| Rollup.SelectionsAgree | stats.c:322-335 | Two selections that pick the same records give the same sums, buckets and bounds. |
| Rollup.MaxWhereMonotone | stats.c:246-247 | Over a larger selection the largest maximum latency is at least as large. |
| Rollup.MinWhereBelow | stats.c:249-250 | Every selected record bounds the selection's smallest minimum latency from above. |
| Rollup.MasterSelection | stats.c:331-335 | The first master of a name receives exactly the runtime records of that name. A later master of the same name receives none. |
| Rollup.UnfedMasterStaysIdle | stats.c:307-339 | A master that no record reaches keeps the idle record of the reset. |
| Rollup.IgnoresNonRuntime | stats.c:322-325 | Records of flowops with `fo_instance <= FLOW_DEFINITION` never reach an aggregate. Two record lists that agree on the runtime flowops give the same slots and the same masters. |
| Rollup.SnapSlot | stats.c:297-329 | After the roll-up, slot t's counters and buckets are the sums over runtime flowops of type t, plus all runtime flowops for the global slot. Its maximum latency is the largest among them. Its minimum latency stays 0 because the slot started zeroed. Only slot 0 carries the kept start time and the new end time. |
| Rollup.SnapMaster | stats.c:307-339 | After the roll-up, the first master of a name holds the sums, the largest maximum and the smallest minimum (`ULLONG_MAX` when none) of the runtime records of that name. A shadowed master is the idle record. A runtime flowop without a master only skips the master merge. |
| Rollup.ZeroMinimumReachesMaster | stats.c:331-335 | A runtime record whose minimum latency is still the 0 that `stats_clear` leaves (`stats.c:455`) drives its master's minimum latency to 0. |
| Rollup.ClearedSlotsStay | stats.c:447-460 | A roll-up over records that are all zero leaves every slot as the reset made it. |
| Rollup.ClearedMasters | stats.c:307-335 | Over all-zero records, a master that some record reaches becomes the all-zero record, with minimum 0 rather than `ULLONG_MAX`. A master no record reaches stays idle. |
| FlowStatsRecord.HSumAdd | stats.c:252-253 | A histogram whose buckets are the elementwise sums of two others totals the sum of their totals. |
| FlowStatsRecord.MergeKeepsHistogramTotal | stats.c:238-253 | If both records' histogram buckets total their operation counts, so do the merged record's. |
| FlowStatsRecord.MergeKeepsBytesSplit | stats.c:241-244 | If both records' bytes are their read plus written bytes, so are the merged record's. |
| FlowStatsRecord.MergeKeepsLatencyOrdered | stats.c:238-250 | If each record with operations has its minimum latency at or below its maximum, so does the merged record. |
| FlowStatsRecord.ResetRecordsWellFormed | stats.c:310-312 | The zeroed record and the idle record with the `ULLONG_MAX` minimum both satisfy the three record invariants. |
| FlowStatsRecord.MergeKeepsWellFormed | stats.c:233-254 | The merge of two records that satisfy the three invariants satisfies them too. |
| Rollup.SlotStartWellFormed | stats.c:297-300 | Every slot as the table reset leaves it satisfies the record invariants. |
| Rollup.SlotKeepsWellFormed | stats.c:322-329 | If the initial slot and every runtime record satisfy the invariants, the slot does after any prefix of the walk. |
| Rollup.MasterKeepsWellFormed | stats.c:331-335 | If every runtime record satisfies the invariants, every master does after any prefix of the walk. |
| Rollup.SnapKeepsWellFormed | stats.c:297-339 | After the roll-up, every slot and every master satisfies the invariants when the runtime records do. In particular each aggregate's histogram totals its operation count. |
| StatsEngine.StatsContext.constructor | stats.c:45-46 | A context before any `stats_clear`: no global table, the given flowops and records, the quiet flag lowered. |
| StatsEngine.StatsContext.Clear | stats.c:437-461 | The table is allocated only when none exists; otherwise the same table is kept. Slot 0 becomes zero with start time `now`, and every other slot and every flowop record becomes all zero. The CPU baseline is resampled. Nothing else changes. |
| StatsEngine.StatsContext.ResetTable | stats.c:297-300 | Every slot becomes zero. Slot 0 keeps its previous start time and gets `now` as its end time. |
| StatsEngine.StatsContext.ResetMasters | stats.c:307-315 | Every master record becomes zero with the `ULLONG_MAX` minimum. Every other record is left as it was. |
| StatsEngine.StatsContext.RollUpStep | stats.c:320-353 | One pass of the walk moves every slot and every master from its value after i flowops to its value after i + 1. Non-master records are never written. |
| StatsEngine.StatsContext.RollUp | stats.c:317-355 | After the walk, every slot equals `SlotAfter` and every master equals `MasterAfter` over the whole list. Every other record is unchanged. |
| StatsEngine.StatsContext.Snap | stats.c:265-430 | The missing-table guard comes first. Each guard returns with no record, slot or flag changed. Otherwise the quiet flag ends lowered. Every slot equals the roll-up of the original records from the reset slot. Every master equals the roll-up from the idle record. Every other flowop's record is unchanged. |

## Left out

- CPU-time sampling (`stats.c:48-228`: the kstat, `/proc/stat` and stub readers, `kstats_read_cpu_relative`, `stats_init`). These are OS calls with no visible contract. `Clear` takes the sample as the parameter `cpuNow`. `Snap` does not model its own sample (`stats.c:357`), because nothing reads it.
- Report rendering (`stats.c:302-304`, `341-351`, `357-427`). This is floating-point rate arithmetic and C string formatting.
- `gethrtime()` becomes the parameter `now`. `filebench_log` calls are dropped, and the early returns of `stats_snap` are reported as a `SnapOutcome` value instead.
- The concurrency meaning of `shm_bequiet` and of shared memory: concurrent writers are not modelled. Only the flag's final value is stated, because raising it on entry is not visible after the call.
- `malloc` failure in `stats_clear`: the model's allocation always succeeds.
- The internals of `flowop_find_one`, which is not part of this model. It is modelled as a lookup of the first master of that name in the list.
- The `fo_next` linked list is modelled as a sequence of flowop descriptors plus a parallel array of their records. The model therefore does not capture the list's pointer structure. The master's record and the runtime record being merged are always distinct entries, because a master is never a running instance.
- Fields of `struct flowstats` that these routines never read or write individually are not modelled.
- StatsAdd: counters are unbounded `nat`s, so the overflow of the fixed-width C counters is not modelled (`fs_count` is apparently 32-bit, since it is printed with `%d` at `stats.c:346`, `377` and `414`). The code relies on it not happening.
- `fs_minlat` is taken to be unsigned 64-bit. Only then does the `ULLONG_MAX` store at `stats.c:312` give the largest value, which the `<` at `stats.c:249` lowers on the first merge. With a signed field the store would give -1 and no merge would lower it. The model's `ULLONG_MAX` sentinel and `MergeIdleIsIdentity` rest on this assumption.
- The header constants are taken as fixed values rather than parameters; see above for what the proofs need from them.
