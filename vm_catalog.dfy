/**
 * The per-VM instrumenter as test/vm.test.js pins it down: the kstat, zfs and
 * time metric tables it holds, the three kstat read options it derives from the
 * zone's instance id, and what its constructor accepts and stores.
 */
module VmCatalog {
  import opened Wrappers
  import opened Common

  datatype MetricType = Counter | Gauge

  /** The `modifier` a definition carries: none, `calculateLoadAvg` or `inskMemLimit`. */
  datatype Modifier = NoModifier | LoadAvg | MemLimit

  /** One kstat metric definition; `name` is the property it is stored under. */
  datatype KstatDef = KstatDef(
    name: string, kstatModule: string, kstatKey: string,
    key: string, metricType: MetricType, help: string, modifier: Modifier)

  datatype ZfsDef = ZfsDef(name: string, zfsKey: string, key: string, metricType: MetricType, help: string)

  datatype TimeDef = TimeDef(name: string, dateKey: string, key: string, metricType: MetricType, help: string)

  /** The three groups of `kstatMetrics`. */
  datatype KstatGroup = LinkGroup | MemoryCapsGroup | ZonesGroup

  datatype KstatCatalog = KstatCatalog(link: seq<KstatDef>, memoryCaps: seq<KstatDef>, zones: seq<KstatDef>)

  /** The filter a kstat read uses: module, class and instance. */
  datatype ReadOpts = ReadOpts(kstatModule: string, kstatClass: string, instance: int)

  const KSTAT_METRICS: KstatCatalog := KstatCatalog(
    [ KstatDef("netAggPacketsIn", "link", "ipackets64", "net_agg_packets_in", Counter,
               "Aggregate inbound packets", NoModifier),
      KstatDef("netAggPacketsOut", "link", "opackets64", "net_agg_packets_out", Counter,
               "Aggregate outbound packets", NoModifier),
      KstatDef("netAggBytesIn", "link", "rbytes64", "net_agg_bytes_in", Counter,
               "Aggregate inbound bytes", NoModifier),
      KstatDef("netAggBytesOut", "link", "obytes64", "net_agg_bytes_out", Counter,
               "Aggregate outbound bytes", NoModifier) ],
    [ KstatDef("memAggUsage", "memory_cap", "rss", "mem_agg_usage", Gauge,
               "Aggregate memory usage in bytes", NoModifier),
      KstatDef("memLimit", "memory_cap", "physcap", "mem_limit", Gauge,
               "Memory limit in bytes", MemLimit),
      KstatDef("memSwap", "memory_cap", "swap", "mem_swap", Gauge,
               "Swap in bytes", NoModifier),
      KstatDef("memSwapLimit", "memory_cap", "swapcap", "mem_swap_limit", Gauge,
               "Swap limit in bytes", MemLimit) ],
    [ KstatDef("cpuUserUsage", "zones", "nsec_user", "cpu_user_usage", Counter,
               "User CPU utilization in nanoseconds", NoModifier),
      KstatDef("cpuSysUsage", "zones", "nsec_sys", "cpu_sys_usage", Counter,
               "System CPU usage in nanoseconds", NoModifier),
      KstatDef("cpuWaitTime", "zones", "nsec_waitrq", "cpu_wait_time", Counter,
               "CPU wait time in nanoseconds", NoModifier),
      KstatDef("loadAvg", "zones", "avenrun_1min", "load_average", Gauge,
               "Load average", LoadAvg) ])

  const ZFS_METRICS: seq<ZfsDef> := [
    ZfsDef("zfsUsed", "used", "zfs_used", Gauge, "zfs space used in bytes"),
    ZfsDef("zfsAvailable", "available", "zfs_available", Gauge, "zfs space available in bytes")
  ]

  const TIME_METRICS: seq<TimeDef> := [
    TimeDef("now", "now", "time_of_day", Counter, "System time in seconds since epoch")
  ]

  function GroupDefs(c: KstatCatalog, g: KstatGroup): seq<KstatDef> {
    match g
    case LinkGroup => c.link
    case MemoryCapsGroup => c.memoryCaps
    case ZonesGroup => c.zones
  }

  /** The kstat module every definition of a group reads from. */
  function GroupModule(g: KstatGroup): string {
    match g
    case LinkGroup => "link"
    case MemoryCapsGroup => "memory_cap"
    case ZonesGroup => "zones"
  }

  /** Every kstat definition, group by group. */
  function AllKstatDefs(c: KstatCatalog): seq<KstatDef> {
    c.link + c.memoryCaps + c.zones
  }

  /** The exposed metric names of all three tables, in order. */
  function ExposedKeys(): seq<string> {
    (seq(|AllKstatDefs(KSTAT_METRICS)|, i requires 0 <= i < |AllKstatDefs(KSTAT_METRICS)| =>
       AllKstatDefs(KSTAT_METRICS)[i].key))
    + (seq(|ZFS_METRICS|, i requires 0 <= i < |ZFS_METRICS| => ZFS_METRICS[i].key))
    + (seq(|TIME_METRICS|, i requires 0 <= i < |TIME_METRICS| => TIME_METRICS[i].key))
  }

  /** The value a definition exposes for a raw kstat reading: the reading itself when it
      has no modifier, otherwise what its modifier returns. */
  function ApplyModifier(m: Modifier, raw: real): (r: Result<Option<real>, AssertionError>)
    ensures m == NoModifier ==> r == Ok(Some(raw))
    ensures m != NoModifier ==> (r.Ok? <==> IsInteger(raw))
    ensures m == LoadAvg && r.Ok? ==> r.value.Some? && r.value.value * 256.0 == raw
    ensures m == MemLimit && r.Ok? ==>
      if raw == MEM_LIMIT_UNCAPPED || raw == MEM_LIMIT_UNSET then r.value.None? else r.value == Some(raw)
  {
    match m
    case NoModifier => Ok(Some(raw))
    case LoadAvg =>
      (match CalculateLoadAvg(raw)
       case Ok(v) => Ok(Some(v))
       case Err(e) => Err(e))
    case MemLimit => InskMemLimit(raw)
  }

  /** The instrumenter of one zone: what its constructor stores. */
  datatype Vm<R> = Vm(
    uuid: string, instance: int, reader: R,
    kstatMetrics: KstatCatalog, zfsMetrics: seq<ZfsDef>, timeMetrics: seq<TimeDef>,
    linkReadOpts: ReadOpts, memReadOpts: ReadOpts, zoneMiscReadOpts: ReadOpts)

  /** Why the constructor throws. */
  datatype VmError = UuidRequired | InstanceRequired

  /** The read options the instrumenter uses for a kstat group. */
  function ReadOptsFor<R>(vm: Vm<R>, g: KstatGroup): ReadOpts {
    match g
    case LinkGroup => vm.linkReadOpts
    case MemoryCapsGroup => vm.memReadOpts
    case ZonesGroup => vm.zoneMiscReadOpts
  }

  /** `new VM(vm_uuid, instance, reader)`; an absent argument is `None`.  It throws
      without a uuid, and with a uuid but no instance; otherwise it stores its
      arguments, the metric tables and the three read options. */
  function NewVm<R>(uuid: Option<string>, instance: Option<int>, reader: R): (r: Result<Vm<R>, VmError>)
    ensures r.Ok? <==> uuid.Some? && instance.Some?
    ensures uuid.None? ==> r == Err(UuidRequired)
    ensures uuid.Some? && instance.None? ==> r == Err(InstanceRequired)
    ensures r.Ok? ==> r.value.uuid == uuid.value && r.value.instance == instance.value && r.value.reader == reader
    ensures r.Ok? ==> r.value.kstatMetrics == KSTAT_METRICS
    ensures r.Ok? ==> r.value.zfsMetrics == ZFS_METRICS && r.value.timeMetrics == TIME_METRICS
    ensures r.Ok? ==> r.value.linkReadOpts == ReadOpts("link", "net", instance.value)
    ensures r.Ok? ==> r.value.memReadOpts == ReadOpts("memory_cap", "zone_memory_cap", instance.value)
    ensures r.Ok? ==> r.value.zoneMiscReadOpts == ReadOpts("zones", "zone_misc", instance.value)
  {
    if uuid.None? then Err(UuidRequired)
    else if instance.None? then Err(InstanceRequired)
    else
      var id := instance.value;
      Ok(Vm(uuid.value, id, reader, KSTAT_METRICS, ZFS_METRICS, TIME_METRICS,
            ReadOpts("link", "net", id),
            ReadOpts("memory_cap", "zone_memory_cap", id),
            ReadOpts("zones", "zone_misc", id)))
  }

  /** The kstat catalog has three groups of four definitions, and every definition reads
      from its group's module. */
  lemma KstatCatalogShape()
    ensures |KSTAT_METRICS.link| == 4 && |KSTAT_METRICS.memoryCaps| == 4 && |KSTAT_METRICS.zones| == 4
    ensures forall g: KstatGroup, i :: 0 <= i < |GroupDefs(KSTAT_METRICS, g)| ==>
      GroupDefs(KSTAT_METRICS, g)[i].kstatModule == GroupModule(g)
  {
    forall g: KstatGroup, i | 0 <= i < |GroupDefs(KSTAT_METRICS, g)|
      ensures GroupDefs(KSTAT_METRICS, g)[i].kstatModule == GroupModule(g)
    {
      match g
      case LinkGroup =>
      case MemoryCapsGroup =>
      case ZonesGroup =>
    }
  }

  /** No exposed metric name occurs twice across the kstat, zfs and time tables. */
  lemma ExposedKeysDistinct()
    ensures |ExposedKeys()| == 15
    ensures forall i, j :: 0 <= i < j < |ExposedKeys()| ==> ExposedKeys()[i] != ExposedKeys()[j]
  {
    var keys := ExposedKeys();
    assert keys == [
      "net_agg_packets_in", "net_agg_packets_out", "net_agg_bytes_in", "net_agg_bytes_out",
      "mem_agg_usage", "mem_limit", "mem_swap", "mem_swap_limit",
      "cpu_user_usage", "cpu_sys_usage", "cpu_wait_time", "load_average",
      "zfs_used", "zfs_available", "time_of_day"];
  }

  /** Where a definition's modifier belongs: `calculateLoadAvg` on `load_average` alone,
      `inskMemLimit` on `mem_limit` and `mem_swap_limit` alone. */
  predicate ModifierPlaced(d: KstatDef) {
    && (d.modifier == LoadAvg <==> d.key == "load_average")
    && (d.modifier == MemLimit <==> d.key == "mem_limit" || d.key == "mem_swap_limit")
  }

  /** Only `load_average` is scaled by calculateLoadAvg, only the two limits are filtered
      by inskMemLimit, and every other definition has no modifier. */
  lemma ModifierPlacement()
    ensures forall g: KstatGroup, i :: 0 <= i < |GroupDefs(KSTAT_METRICS, g)| ==>
      ModifierPlaced(GroupDefs(KSTAT_METRICS, g)[i])
  {
    forall g: KstatGroup, i | 0 <= i < |GroupDefs(KSTAT_METRICS, g)|
      ensures ModifierPlaced(GroupDefs(KSTAT_METRICS, g)[i])
    {
      match g
      case LinkGroup =>
      case MemoryCapsGroup =>
      case ZonesGroup =>
    }
  }

  /** The CPU nanosecond counters, the network counters and the time of day are counters;
      the load average and the memory and zfs metrics are gauges. */
  lemma MetricTypes()
    ensures forall d :: d in AllKstatDefs(KSTAT_METRICS) ==>
      (d.metricType == Counter <==> d.kstatModule == "link" || d.kstatKey in {"nsec_user", "nsec_sys", "nsec_waitrq"})
    ensures forall d :: d in ZFS_METRICS ==> d.metricType == Gauge
    ensures forall d :: d in TIME_METRICS ==> d.metricType == Counter
  {
  }

  /** A constructed instrumenter reads every kstat group with its group's module and with
      the zone's own instance id. */
  lemma ReadOptsMatchGroups<R>(uuid: string, instance: int, reader: R, g: KstatGroup)
    ensures NewVm(Some(uuid), Some(instance), reader).Ok?
    ensures var vm := NewVm(Some(uuid), Some(instance), reader).value;
      && ReadOptsFor(vm, g).kstatModule == GroupModule(g)
      && ReadOptsFor(vm, g).instance == instance
      && forall i :: 0 <= i < |GroupDefs(vm.kstatMetrics, g)| ==>
           GroupDefs(vm.kstatMetrics, g)[i].kstatModule == ReadOptsFor(vm, g).kstatModule
  {
    KstatCatalogShape();
  }
}
