/**
  The static registry `New` builds: which accounting files the collector
  knows, by base name, and how each is decoded. A file is either a
  single-value file (one descriptor) or a multi-value file (a descriptor per
  sub-key, with an optional unit modifier, and one of three decoders).
 */
module Registry {
  import opened Wrappers
  import opened Metrics

  /** `desc`: a descriptor and its optional unit modifier. */
  datatype Descriptor = Descriptor(desc: Desc, modifier: Option<Modifier>)

  /** `collector`: a single-value file, always decoded by collectSingleValue. */
  datatype SingleCollector = SingleCollector(desc: Desc, kind: ValueType)

  /** The decoder of a multi-value file. */
  datatype Decoder =
    | FlatKeyedFormat(kind: ValueType)   // collectFlatKeyed(kind)
    | PressureFormat                     // collectPressure
    | IOStatFormat                       // collectIOStat

  /** `multipleCollector`: the descriptor of each sub-key and the decoder. */
  datatype MultipleCollector = MultipleCollector(descs: map<string, Descriptor>, decoder: Decoder)

  const CgroupLabels: seq<string> := ["cgroup"]
  const DeviceCgroupLabels: seq<string> := ["device", "cgroup"]

  /** The label schema every descriptor of a decoder's file uses. */
  function LabelsFor(d: Decoder): (labels: seq<string>) {
    if d.IOStatFormat? then DeviceCgroupLabels else CgroupLabels
  }

  /** The glob `New` stores: an empty pattern means every top-level entry. */
  function DefaultGlob(glob: string): (g: string)
    ensures g != ""
    ensures glob != "" ==> g == glob
  {
    if glob == "" then "*" else glob
  }

  // ---------------------------------------------------------------------------
  // singleCollectors
  // ---------------------------------------------------------------------------

  /** The single-value files `New` registers. */
  datatype SingleFile =
    | MemoryMin | MemoryLow | MemoryHigh | MemoryMax | MemoryCurrent
    | MemorySwapHigh | MemorySwapMax | MemorySwapCurrent | MemoryZswapMax | MemoryZswapCurrent
    | PidsCurrent | PidsMax

  function SingleFiles(): (all: set<SingleFile>) {
    {MemoryMin, MemoryLow, MemoryHigh, MemoryMax, MemoryCurrent,
     MemorySwapHigh, MemorySwapMax, MemorySwapCurrent, MemoryZswapMax, MemoryZswapCurrent,
     PidsCurrent, PidsMax}
  }

  /** The base name of each single-value file. */
  function SingleName(f: SingleFile): (name: string) {
    match f
    case MemoryMin => "memory.min"
    case MemoryLow => "memory.low"
    case MemoryHigh => "memory.high"
    case MemoryMax => "memory.max"
    case MemoryCurrent => "memory.current"
    case MemorySwapHigh => "memory.swap.high"
    case MemorySwapMax => "memory.swap.max"
    case MemorySwapCurrent => "memory.swap.current"
    case MemoryZswapMax => "memory.zswap.max"
    case MemoryZswapCurrent => "memory.zswap.current"
    case PidsCurrent => "pids.current"
    case PidsMax => "pids.max"
  }

  /** The metric name of each single-value file. */
  function SingleMetric(f: SingleFile): (metric: string) {
    match f
    case MemoryMin => "cgroup_memory_min_bytes"
    case MemoryLow => "cgroup_memory_low_bytes"
    case MemoryHigh => "cgroup_memory_high_bytes"
    case MemoryMax => "cgroup_memory_max_bytes"
    case MemoryCurrent => "cgroup_memory_current_bytes"
    case MemorySwapHigh => "cgroup_memory_swap_high_bytes"
    case MemorySwapMax => "cgroup_memory_swap_max_bytes"
    case MemorySwapCurrent => "cgroup_memory_swap_current_bytes"
    case MemoryZswapMax => "cgroup_memory_zswap_max_bytes"
    case MemoryZswapCurrent => "cgroup_memory_zswap_current_bytes"
    case PidsCurrent => "cgroup_pids_current"
    case PidsMax => "cgroup_pids_max"
  }

  /** Different single-value files have different base names: the length
      and the last character already tell them apart. */
  lemma SingleNamesDistinct()
    ensures forall f, g :: SingleName(f) == SingleName(g) ==> f == g
  {
    forall f, g | f != g
      ensures SingleName(f) != SingleName(g)
    {
      var a, b := SingleName(f), SingleName(g);
      assert |a| != |b| || a[|a| - 1] != b[|b| - 1];
    }
  }

  /** `singleCollectors`: every file a gauge labelled by its cgroup. */
  function SingleCollectors(): (table: map<string, SingleCollector>) {
    SingleNamesDistinct();
    map f | f in SingleFiles() :: SingleName(f) := SingleCollector(Desc(SingleMetric(f), CgroupLabels), Metrics.Gauge)
  }

  /** The registered single-value file of a base name. */
  lemma SingleEntry(name: string) returns (f: SingleFile)
    requires name in SingleCollectors()
    ensures SingleName(f) == name
    ensures SingleCollectors()[name] == SingleCollector(Desc(SingleMetric(f), CgroupLabels), Metrics.Gauge)
  {
    SingleNamesDistinct();
    f :| f in SingleFiles() && SingleName(f) == name;
  }

  // ---------------------------------------------------------------------------
  // multipleCollectors
  // ---------------------------------------------------------------------------

  /** A descriptor table: the metric name of each sub-key, the sub-keys
      whose values are microseconds shown as seconds, and the label schema
      all of the table's descriptors share. */
  function Table(names: map<string, string>, seconds: set<string>, labels: seq<string>): (table: map<string, Descriptor>) {
    map k | k in names :: Descriptor(Desc(names[k], labels), if k in seconds then Some(MicroSecondsToSeconds) else None)
  }

  /** The byte counts of `memory.stat`, each named `cgroup_memory_<key>_bytes`. */
  function MemoryStatBytes(): (names: map<string, string>) {
    map k | k in {
      "anon", "file", "kernel", "kernel_stack", "pagetables", "sec_pagetables", "percpu", "sock",
      "vmalloc", "shmem", "zswap", "zswapped", "file_mapped", "file_dirty", "file_writeback",
      "swapcached", "anon_thp", "file_thp", "shmem_thp", "inactive_anon", "active_anon",
      "inactive_file", "active_file", "unevictable", "slab_reclaimable", "slab_unreclaimable",
      "slab"
    } :: "cgroup_memory_" + k + "_bytes"
  }

  /** The page and event counts of `memory.stat`, each named `cgroup_memory_<key>`. */
  function MemoryStatCounts(): (names: map<string, string>) {
    map k | k in {
      "workingset_refault_anon", "workingset_refault_file", "workingset_activate_anon",
      "workingset_activate_file", "workingset_restore_anon", "workingset_restore_file",
      "workingset_nodereclaim", "pgscan", "pgsteal", "pgscan_kswapd", "pgscan_direct",
      "pgscan_khugepaged", "pgsteal_kswapd", "pgsteal_direct", "pgsteal_khugepaged", "pgfault",
      "pgmajfault", "pgrefill", "pgactivate", "pgdeactivate", "pglazyfree", "pglazyfreed",
      "zswpin", "zswpout", "zswpwb", "thp_fault_alloc", "thp_collapse_alloc", "thp_swpout",
      "thp_swpout_fallback"
    } :: "cgroup_memory_" + k
  }

  /** The multi-value files `New` registers. */
  datatype MultipleFile =
    | MemoryStat | MemoryEvents | MemoryPressure | CpuPressure
    | IOPressure | CpuStat | IOStat | PidsEvents

  function MultipleFiles(): (all: set<MultipleFile>) {
    {MemoryStat, MemoryEvents, MemoryPressure, CpuPressure,
     IOPressure, CpuStat, IOStat, PidsEvents}
  }

  /** The base name of each multi-value file. */
  function FileName(f: MultipleFile): (name: string) {
    match f
    case MemoryStat => "memory.stat"
    case MemoryEvents => "memory.events"
    case MemoryPressure => "memory.pressure"
    case CpuPressure => "cpu.pressure"
    case IOPressure => "io.pressure"
    case CpuStat => "cpu.stat"
    case IOStat => "io.stat"
    case PidsEvents => "pids.events"
  }

  /** The metric names of a pressure file of the resource `r`:
      `cgroup_<r>_pressure_waiting_seconds_total` for `some` and
      `cgroup_<r>_pressure_stalled_seconds_total` for `full`. */
  function PressureNames(r: string): (names: map<string, string>) {
    map[
      "some" := "cgroup_" + r + "_pressure_waiting_seconds_total",
      "full" := "cgroup_" + r + "_pressure_stalled_seconds_total"]
  }

  /** The metric name of each sub-key of a multi-value file. */
  function MetricNames(f: MultipleFile): (names: map<string, string>) {
    match f
    case MemoryStat => MemoryStatBytes() + MemoryStatCounts()
    case MemoryEvents => map[
      "low"            := "cgroup_memory_events_low_total",
      "high"           := "cgroup_memory_events_high_total",
      "max"            := "cgroup_memory_events_max_total",
      "oom"            := "cgroup_memory_events_oom_total",
      "oom_kill"       := "cgroup_memory_events_oom_kill_total",
      "oom_group_kill" := "cgroup_memory_events_oom_group_kill_total"]
    case MemoryPressure => PressureNames("memory")
    case CpuPressure => PressureNames("cpu")
    case IOPressure => PressureNames("io")
    case CpuStat => map[
      "usage_usec"                 := "cgroup_cpu_usage_seconds_total",
      "user_usec"                  := "cgroup_cpu_user_seconds_total",
      "system_usec"                := "cgroup_cpu_system_seconds_total",
      "nr_periods"                 := "cgroup_cpu_periods_total",
      "nr_throttled"               := "cgroup_cpu_throttled_total",
      "throttled_usec"             := "cgroup_cpu_throttled_seconds_total",
      "nr_bursts"                  := "cgroup_cpu_bursts_total",
      "burst_usec"                 := "cgroup_cpu_burst_seconds_total",
      "core_sched.force_idle_usec" := "cgroup_cpu_core_sched_force_idle_seconds_total"]
    case IOStat => map[
      "rbytes" := "cgroup_io_read_bytes_total",
      "wbytes" := "cgroup_io_write_bytes_total",
      "dbytes" := "cgroup_io_discard_bytes_total",
      "rios"   := "cgroup_io_read_operations_total",
      "wios"   := "cgroup_io_write_operations_total",
      "dios"   := "cgroup_io_discard_operations_total"]
    case PidsEvents => map["max" := "cgroup_pids_events_max_total"]
  }

  /** The sub-keys of a multi-value file that carry `microSecondsToSeconds`. */
  function SecondsKeys(f: MultipleFile): (keys: set<string>) {
    match f
    case MemoryPressure | CpuPressure | IOPressure => {"some", "full"}
    case CpuStat => {"usage_usec", "user_usec", "system_usec", "throttled_usec", "burst_usec", "core_sched.force_idle_usec"}
    case MemoryStat | MemoryEvents | IOStat | PidsEvents => {}
  }

  /** The decoder of each multi-value file. */
  function DecoderOf(f: MultipleFile): (d: Decoder) {
    match f
    case MemoryStat => FlatKeyedFormat(Metrics.Gauge)
    case MemoryPressure | CpuPressure | IOPressure => PressureFormat
    case IOStat => IOStatFormat
    case MemoryEvents | CpuStat | PidsEvents => FlatKeyedFormat(Counter)
  }

  /** The descriptor table of each multi-value file. */
  function Descriptors(f: MultipleFile): (descs: map<string, Descriptor>) {
    Table(MetricNames(f), SecondsKeys(f), LabelsFor(DecoderOf(f)))
  }

  /** Different multi-value files have different base names: the length
      and the last character already tell them apart. */
  lemma FileNamesDistinct()
    ensures forall f, g :: FileName(f) == FileName(g) ==> f == g
  {
    forall f, g | f != g
      ensures FileName(f) != FileName(g)
    {
      var a, b := FileName(f), FileName(g);
      assert |a| != |b| || a[|a| - 1] != b[|b| - 1];
    }
  }

  /** `multipleCollectors` */
  function MultipleCollectors(): (table: map<string, MultipleCollector>) {
    FileNamesDistinct();
    map f | f in MultipleFiles() :: FileName(f) := MultipleCollector(Descriptors(f), DecoderOf(f))
  }

  /** The registered multi-value file of a base name. */
  lemma MultipleEntry(name: string) returns (f: MultipleFile)
    requires name in MultipleCollectors()
    ensures FileName(f) == name
    ensures MultipleCollectors()[name] == MultipleCollector(Descriptors(f), DecoderOf(f))
  {
    FileNamesDistinct();
    f :| f in MultipleFiles() && FileName(f) == name;
  }

  // ---------------------------------------------------------------------------
  // Properties of the registry
  // ---------------------------------------------------------------------------

  /** Every descriptor of a table has the label schema `labels`. */
  ghost predicate Labelled(descs: map<string, Descriptor>, labels: seq<string>) {
    forall k :: k in descs ==> descs[k].desc.labelNames == labels
  }

  /** A pressure table: the entries `some` and `full`, both converted from
      microseconds to seconds. */
  ghost predicate PressureTable(descs: map<string, Descriptor>) {
    descs.Keys == {"some", "full"} && forall k :: k in descs ==> descs[k].modifier == Some(MicroSecondsToSeconds)
  }

  /** The last two characters tell the base names of the two tables apart:
      a single-value file's name ends in `in`, `ow`, `gh`, `ax` or `nt`... */
  predicate SingleEnding(name: string) {
    |name| >= 2
    && var last := name[|name| - 1];
       last == 'n' || last == 'w' || last == 'h' || last == 'x' || (last == 't' && name[|name| - 2] == 'n')
  }

  /** ...and a multi-value file's in `at`, `ts` or `re`. */
  predicate MultipleEnding(name: string) {
    |name| >= 2
    && var last := name[|name| - 1];
       last == 's' || last == 'e' || (last == 't' && name[|name| - 2] == 'a')
  }

  lemma SingleEndings(f: SingleFile)
    ensures SingleEnding(SingleName(f))
  {
  }

  lemma MultipleEndings(f: MultipleFile)
    ensures MultipleEnding(FileName(f))
  {
  }

  lemma EndingsApart(name: string)
    requires SingleEnding(name)
    ensures !MultipleEnding(name)
  {
  }

  /** No base name has both a single-value and a multi-value handler, so a
      file is opened at most once per visit. */
  lemma RegistryKeysDisjoint()
    ensures SingleCollectors().Keys !! MultipleCollectors().Keys
  {
    forall n | n in MultipleCollectors() && n in SingleCollectors()
      ensures false
    {
      var f := MultipleEntry(n);
      var g := SingleEntry(n);
      MultipleEndings(f);
      SingleEndings(g);
      EndingsApart(n);
    }
  }

  /** Every single-value file is a gauge labelled by its cgroup. */
  lemma SingleSchemas()
    ensures forall n :: n in SingleCollectors() ==>
      SingleCollectors()[n].desc.labelNames == CgroupLabels && SingleCollectors()[n].kind == Metrics.Gauge
  {
    forall n | n in SingleCollectors()
      ensures SingleCollectors()[n].desc.labelNames == CgroupLabels && SingleCollectors()[n].kind == Metrics.Gauge
    {
      var f := SingleEntry(n);
    }
  }

  /** Every descriptor of a multi-value file has its decoder's label
      schema: the device and the cgroup for `io.stat`, the cgroup alone
      otherwise. */
  lemma MultipleSchemas()
    ensures forall n, k :: n in MultipleCollectors() && k in MultipleCollectors()[n].descs ==>
      MultipleCollectors()[n].descs[k].desc.labelNames == LabelsFor(MultipleCollectors()[n].decoder)
  {
    forall n | n in MultipleCollectors()
      ensures Labelled(MultipleCollectors()[n].descs, LabelsFor(MultipleCollectors()[n].decoder))
    {
      var f := MultipleEntry(n);
    }
  }

  /** The pressure files register `some` and `full`, both in seconds. */
  lemma PressureTables(r: string)
    ensures PressureTable(Table(PressureNames(r), {"some", "full"}, CgroupLabels))
  {
    assert PressureNames(r).Keys == {"some", "full"};
  }

  /** The pressure decoder serves exactly the three pressure files, each
      registering the entries `some` and `full`, both converted from
      microseconds to seconds. */
  lemma PressureHandlers()
    ensures forall n :: n in MultipleCollectors() ==>
      (MultipleCollectors()[n].decoder.PressureFormat?
       <==> n in {FileName(MemoryPressure), FileName(CpuPressure), FileName(IOPressure)})
    ensures forall n :: n in MultipleCollectors() && MultipleCollectors()[n].decoder.PressureFormat? ==>
      PressureTable(MultipleCollectors()[n].descs)
  {
    FileNamesDistinct();
    forall n | n in MultipleCollectors()
      ensures MultipleCollectors()[n].decoder.PressureFormat?
              <==> n in {FileName(MemoryPressure), FileName(CpuPressure), FileName(IOPressure)}
      ensures MultipleCollectors()[n].decoder.PressureFormat? ==> PressureTable(MultipleCollectors()[n].descs)
    {
      var f := MultipleEntry(n);
      assert n in {FileName(MemoryPressure), FileName(CpuPressure), FileName(IOPressure)}
         <==> f in {MemoryPressure, CpuPressure, IOPressure};
      match f
      case MemoryPressure => PressureTables("memory");
      case CpuPressure => PressureTables("cpu");
      case IOPressure => PressureTables("io");
      case _ =>
    }
  }
}
