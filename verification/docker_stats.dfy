/** The per-container arithmetic of the collector (core/src/log.rs): `reshape_json`
    pulls the counters it needs out of one container-runtime stats document, and the
    body of the `calc_usage` loop turns a current and a previous reshaped document into
    rates. Every counter is optional; a missing one stays missing downstream. */
module DockerStats {
  import opened Wrappers
  import opened JsonValue

  /** Nanoseconds per millisecond: the CPU counters are reported in ns. */
  const NS_PER_MS: nat := 1_000_000

  /** `a.saturating_sub(b)`: the difference, or 0 when `b` is larger. */
  function SaturatingSub(a: nat, b: nat): (r: nat)
    ensures r <= a
    ensures a >= b ==> r + b == a
    ensures a <= b ==> r == 0
  {
    if a >= b then a - b else 0
  }

  /** `cur.zip(prev).map(|(a, b)| a.saturating_sub(b))`. */
  function Delta(cur: Option<nat>, prev: Option<nat>): (r: Option<nat>)
    ensures r.Some? <==> cur.Some? && prev.Some?
    ensures r.Some? ==> r.value <= cur.value
    ensures r.Some? && cur.value >= prev.value ==> r.value + prev.value == cur.value
    ensures r.Some? && cur.value < prev.value ==> r.value == 0
  {
    if cur.Some? && prev.Some? then Some(SaturatingSub(cur.value, prev.value)) else None
  }

  /** `o.map(|v| v / d)`. */
  function MapDiv(o: Option<nat>, d: nat): (r: Option<nat>)
    requires d > 0
    ensures r.Some? <==> o.Some?
    ensures r.Some? ==> r.value * d <= o.value < (r.value + 1) * d
  {
    if o.Some? then Some(o.value / d) else None
  }

  // ---------------------------------------------------------------------------
  // reshape_json

  /** The counters kept for one container per tick. */
  datatype ContainerStats = ContainerStats(
    time: Option<string>,
    total: Option<nat>,       // CPU time used by the container, ms
    system: Option<nat>,      // CPU time of the whole host, ms
    ncpu: Option<nat>,
    used: Option<nat>,        // memory, bytes
    available: Option<nat>,   // memory limit, bytes
    read: Option<nat>,        // block I/O, bytes since start
    write: Option<nat>,
    send: Option<nat>,        // eth0, bytes since start
    recv: Option<nat>)

  predicate InRange(o: Option<nat>) {
    o.Some? ==> o.value < U64_LIMIT
  }

  /** Every counter fits the `u64` it is stored in. */
  predicate StatsInRange(s: ContainerStats) {
    InRange(s.total) && InRange(s.system) && InRange(s.ncpu) && InRange(s.used) && InRange(s.available)
    && InRange(s.read) && InRange(s.write) && InRange(s.send) && InRange(s.recv)
  }

  /** Used memory: the usage minus the page cache (a missing cache entry counts as 0),
      saturating at 0; absent exactly when the usage is absent. */
  function UsedMemory(usage: Option<nat>, cache: Option<nat>): (r: Option<nat>)
    ensures r.Some? <==> usage.Some?
    ensures r.Some? ==> r.value <= usage.value
    ensures r.Some? && usage.value >= cache.GetOr(0) ==> r.value + cache.GetOr(0) == usage.value
    ensures r.Some? && usage.value <= cache.GetOr(0) ==> r.value == 0
  {
    if usage.Some? then Some(SaturatingSub(usage.value, cache.GetOr(0))) else None
  }

  /** The `value` of the first block-I/O entry whose `op` is the string `op`; absent when
      there is no such entry or its value is not a `u64` (later entries are not tried). */
  function BlkioValue(entries: seq<Json>, op: string): (r: Option<nat>)
    ensures r.Some? ==> exists i :: 0 <= i < |entries| && Get(entries[i], "op") == Str(op)
                          && AsU64(Get(entries[i], "value")) == r
                          && forall k :: 0 <= k < i ==> Get(entries[k], "op") != Str(op)
    ensures (forall i :: 0 <= i < |entries| ==> Get(entries[i], "op") != Str(op)) ==> r.None?
  {
    if entries == [] then None
    else if Get(entries[0], "op") == Str(op) then AsU64(Get(entries[0], "value"))
    else
      var r := BlkioValue(entries[1..], op);
      assert r.Some? ==> exists i :: 1 <= i < |entries| && Get(entries[i], "op") == Str(op)
                          && AsU64(Get(entries[i], "value")) == r
                          && forall k :: 0 <= k < i ==> Get(entries[k], "op") != Str(op) by {
        if r.Some? {
          var i :| 0 <= i < |entries[1..]| && Get(entries[1..][i], "op") == Str(op)
                   && AsU64(Get(entries[1..][i], "value")) == r
                   && forall k :: 0 <= k < i ==> Get(entries[1..][k], "op") != Str(op);
          assert forall k :: 0 <= k < i + 1 ==> Get(entries[k], "op") != Str(op) by {
            forall k | 0 <= k < i + 1 ensures Get(entries[k], "op") != Str(op) {
              if k > 0 { assert entries[k] == entries[1..][k - 1]; }
            }
          }
        }
      }
      r
  }

  /** `reshape_json`: the counters read out of a stats document. CPU times are
      converted from ns to ms by integer division; the CPU count must fit a `u32`. */
  function Reshape(doc: Json): (s: ContainerStats)
    ensures StatsInRange(s)
    ensures s.total.Some? <==> AsU64(Get(Get(Get(doc, "cpu_stats"), "cpu_usage"), "total_usage")).Some?
    ensures s.total.Some? ==>
      var ns := AsU64(Get(Get(Get(doc, "cpu_stats"), "cpu_usage"), "total_usage")).value;
      s.total.value * NS_PER_MS <= ns < (s.total.value + 1) * NS_PER_MS
    ensures s.system.Some? <==> AsU64(Get(Get(doc, "cpu_stats"), "system_cpu_usage")).Some?
    ensures s.system.Some? ==>
      var ns := AsU64(Get(Get(doc, "cpu_stats"), "system_cpu_usage")).value;
      s.system.value * NS_PER_MS <= ns < (s.system.value + 1) * NS_PER_MS
    ensures s.ncpu.Some? ==> s.ncpu.value < U32_LIMIT
    ensures s.used.Some? <==> AsU64(Get(Get(doc, "memory_stats"), "usage")).Some?
    ensures s.time == AsStr(Get(doc, "read"))
  {
    var cpu := Get(doc, "cpu_stats");
    var memory := Get(doc, "memory_stats");
    var blkio := Members(Get(Get(doc, "blkio_stats"), "io_service_bytes_recursive"));
    var eth0 := Get(Get(doc, "networks"), "eth0");
    ContainerStats(
      time := AsStr(Get(doc, "read")),
      total := MapDiv(AsU64(Get(Get(cpu, "cpu_usage"), "total_usage")), NS_PER_MS),
      system := MapDiv(AsU64(Get(cpu, "system_cpu_usage")), NS_PER_MS),
      ncpu := AsU32(Get(cpu, "online_cpus")),
      used := UsedMemory(AsU64(Get(memory, "usage")), AsU64(Get(Get(memory, "stats"), "cache"))),
      available := AsU64(Get(memory, "limit")),
      read := BlkioValue(blkio, "read"),
      write := BlkioValue(blkio, "write"),
      send := AsU64(Get(eth0, "tx_bytes")),
      recv := AsU64(Get(eth0, "rx_bytes")))
  }

  /** The document `reshape_json` builds:
      `{time, cpu: {total, system, ncpu}, memory: {used, available}, io: {read, write},
      net: {send, recv}}`, absent counters written as `null`. */
  function StatsToJson(s: ContainerStats): Json {
    Obj([
      ("time", OptStr(s.time)),
      ("cpu", Obj([("total", OptNum(s.total)), ("system", OptNum(s.system)), ("ncpu", OptNum(s.ncpu))])),
      ("memory", Obj([("used", OptNum(s.used)), ("available", OptNum(s.available))])),
      ("io", Obj([("read", OptNum(s.read)), ("write", OptNum(s.write))])),
      ("net", Obj([("send", OptNum(s.send)), ("recv", OptNum(s.recv))]))])
  }

  /** `reshape_json` itself. */
  function ReshapeJson(doc: Json): Json {
    StatsToJson(Reshape(doc))
  }

  /** `j[a][b].as_u64()`. */
  function Counter(j: Json, a: string, b: string): Option<nat> {
    AsU64(Get(Get(j, a), b))
  }

  /** How `calc_usage` reads a reshaped document back: every counter through
      `as_u64`, a missing document (`null`) giving no counters at all. */
  function ReadStats(j: Json): (s: ContainerStats)
    ensures j == Null ==> s == ContainerStats(None, None, None, None, None, None, None, None, None, None)
  {
    ContainerStats(
      time := AsStr(Get(j, "time")),
      total := Counter(j, "cpu", "total"),
      system := Counter(j, "cpu", "system"),
      ncpu := Counter(j, "cpu", "ncpu"),
      used := Counter(j, "memory", "used"),
      available := Counter(j, "memory", "available"),
      read := Counter(j, "io", "read"),
      write := Counter(j, "io", "write"),
      send := Counter(j, "net", "send"),
      recv := Counter(j, "net", "recv"))
  }

  /** Reading a reshaped document back gives exactly the counters written into it. */
  lemma ReadStatsOfStatsToJson(s: ContainerStats)
    requires StatsInRange(s)
    ensures ReadStats(StatsToJson(s)) == s
  {
    var j := StatsToJson(s);
    StatsToJsonParts(s);
    ReadThree(Get(j, "cpu"), "total", "system", "ncpu", s.total, s.system, s.ncpu);
    ReadTwo(Get(j, "memory"), "used", "available", s.used, s.available);
    ReadTwo(Get(j, "io"), "read", "write", s.read, s.write);
    ReadTwo(Get(j, "net"), "send", "recv", s.send, s.recv);
  }

  lemma StatsToJsonParts(s: ContainerStats)
    ensures var j := StatsToJson(s);
      && Get(j, "time") == OptStr(s.time)
      && Get(j, "cpu") == Obj([("total", OptNum(s.total)), ("system", OptNum(s.system)), ("ncpu", OptNum(s.ncpu))])
      && Get(j, "memory") == Obj([("used", OptNum(s.used)), ("available", OptNum(s.available))])
      && Get(j, "io") == Obj([("read", OptNum(s.read)), ("write", OptNum(s.write))])
      && Get(j, "net") == Obj([("send", OptNum(s.send)), ("recv", OptNum(s.recv))])
  {
    var j := StatsToJson(s);
    assert Get(j, "time") == OptStr(s.time) by { LookupFirst(j.entries, 0); }
    assert Get(j, "cpu") == j.entries[1].1 by { LookupFirst(j.entries, 1); }
    assert Get(j, "memory") == j.entries[2].1 by { LookupFirst(j.entries, 2); }
    assert Get(j, "io") == j.entries[3].1 by { LookupFirst(j.entries, 3); }
    assert Get(j, "net") == j.entries[4].1 by { LookupFirst(j.entries, 4); }
  }

  lemma ReadTwo(j: Json, a: string, b: string, x: Option<nat>, y: Option<nat>)
    requires a != b && InRange(x) && InRange(y)
    requires j == Obj([(a, OptNum(x)), (b, OptNum(y))])
    ensures AsU64(Get(j, a)) == x && AsU64(Get(j, b)) == y
  {
    LookupFirst(j.entries, 0);
    LookupFirst(j.entries, 1);
  }

  lemma ReadThree(j: Json, a: string, b: string, c: string, x: Option<nat>, y: Option<nat>, z: Option<nat>)
    requires a != b && a != c && b != c && InRange(x) && InRange(y) && InRange(z)
    requires j == Obj([(a, OptNum(x)), (b, OptNum(y)), (c, OptNum(z))])
    ensures AsU64(Get(j, a)) == x && AsU64(Get(j, b)) == y && AsU64(Get(j, c)) == z
  {
    LookupFirst(j.entries, 0);
    LookupFirst(j.entries, 1);
    LookupFirst(j.entries, 2);
  }

  // ---------------------------------------------------------------------------
  // calc_usage, per container

  /** An `f32` quotient: an exact real, or the infinity / NaN of a division by zero. */
  datatype Ratio = Exact(value: real) | DivByZero

  /** `(a as f32) / (b as f32) * (c as f32) * 100_f32`, without rounding. */
  function Percentage(a: nat, b: nat, c: nat): (r: Ratio)
    ensures r.DivByZero? <==> b == 0
  {
    if b == 0 then DivByZero else Exact((a as real) / (b as real) * (c as real) * 100.0)
  }

  /** The rates and totals `calc_usage` writes for one container. */
  datatype Usage = Usage(
    cpuPercentage: Option<Ratio>,
    cpuTotal: Option<nat>,
    cpuSystem: Option<nat>,
    ncpu: Option<nat>,
    memPercentage: Option<Ratio>,
    used: Option<nat>,
    available: Option<nat>,
    readkBps: Option<nat>,
    writekBps: Option<nat>,
    readkB: Option<nat>,
    writekB: Option<nat>,
    sendkBps: Option<nat>,
    recvkBps: Option<nat>,
    sendkB: Option<nat>,
    recvkB: Option<nat>)

  /** Integer I/O rate in kB/s, `cur.zip(prev).map(|(a, b)| a.saturating_sub(b) / 1000
      / (millis / 1000))`: absent unless both counters are present; 0 when the counter
      went backwards (a restart); otherwise whole kB per whole second, rounded down. */
  function IoRate(cur: Option<nat>, prev: Option<nat>, millis: nat): (r: Option<nat>)
    requires millis >= 1000
    ensures r.Some? <==> cur.Some? && prev.Some?
    ensures r.Some? && cur.value <= prev.value ==> r.value == 0
  {
    var diff := Delta(cur, prev);
    if diff.Some? then Some(diff.value / 1000 / (millis / 1000)) else None
  }

  /** Integer network rate, `cur.zip(prev).map(|(a, b)| a.saturating_sub(b) / millis)`:
      absent unless both counters are present, 0 after a restart, otherwise the byte
      difference divided by the tick length in ms, rounded down. */
  function NetRate(cur: Option<nat>, prev: Option<nat>, millis: nat): (r: Option<nat>)
    requires millis >= 1000
    ensures r.Some? <==> cur.Some? && prev.Some?
    ensures r.Some? && cur.value <= prev.value ==> r.value == 0
  {
    var diff := Delta(cur, prev);
    if diff.Some? then Some(diff.value / millis) else None
  }

  /** The CPU percentage: present exactly when the CPU delta, the system delta and the
      CPU count are all present (there is no check that the system delta is positive). */
  function CpuPercentage(cpuDelta: Option<nat>, systemDelta: Option<nat>, ncpu: Option<nat>): (r: Option<Ratio>)
    ensures r.Some? <==> cpuDelta.Some? && systemDelta.Some? && ncpu.Some?
    ensures r.Some? ==> (r.value.DivByZero? <==> systemDelta.value == 0)
  {
    if cpuDelta.Some? && systemDelta.Some? && ncpu.Some?
    then Some(Percentage(cpuDelta.value, systemDelta.value, ncpu.value)) else None
  }

  /** The I/O rate is whole kB per whole second, rounded down: `r` whole seconds' worth
      of kB fit in the kB transferred, `r + 1` do not. */
  lemma IoRateBounds(cur: Option<nat>, prev: Option<nat>, millis: nat)
    requires millis >= 1000
    requires cur.Some? && prev.Some?
    ensures var r := IoRate(cur, prev, millis).value;
      var kB := SaturatingSub(cur.value, prev.value) / 1000;
      r * (millis / 1000) <= kB < (r + 1) * (millis / 1000)
  {
    var kB := SaturatingSub(cur.value, prev.value) / 1000;
    var secs := millis / 1000;
    assert kB == secs * (kB / secs) + kB % secs;
  }

  /** The network rate is the byte difference over the tick length, rounded down. */
  lemma NetRateBounds(cur: Option<nat>, prev: Option<nat>, millis: nat)
    requires millis >= 1000
    requires cur.Some? && prev.Some?
    ensures var r := NetRate(cur, prev, millis).value;
      var diff := SaturatingSub(cur.value, prev.value);
      r * millis <= diff < (r + 1) * millis
  {
    var diff := SaturatingSub(cur.value, prev.value);
    assert diff == millis * (diff / millis) + diff % millis;
  }

  /** A finite CPU percentage is the CPU delta over the system delta, times the CPU
      count, times 100. */
  lemma CpuPercentageValue(cpuDelta: nat, systemDelta: nat, ncpu: nat)
    requires systemDelta > 0
    ensures var r := CpuPercentage(Some(cpuDelta), Some(systemDelta), Some(ncpu)).value;
      r.Exact? && r.value * (systemDelta as real) == (cpuDelta * ncpu * 100) as real
  {
    var b := systemDelta as real;
    var x := (cpuDelta as real) / b * (ncpu as real) * 100.0;
    assert x * b == (cpuDelta as real) * (ncpu as real) * 100.0;
  }

  /** The body of the `calc_usage` loop for one container, given the counters of the
      current and the previous snapshot (all absent when the container is new). */
  function UsageOf(millis: nat, cur: ContainerStats, prev: ContainerStats): (u: Usage)
    requires millis >= 1000
    ensures u.cpuTotal.Some? <==> cur.total.Some? && prev.total.Some?
    ensures u.cpuSystem.Some? <==> cur.system.Some? && prev.system.Some?
    ensures u.cpuPercentage.Some? <==> u.cpuTotal.Some? && u.cpuSystem.Some? && cur.ncpu.Some?
    ensures u.memPercentage.Some? <==> cur.used.Some? && cur.available.Some?
    ensures u.readkBps.Some? <==> cur.read.Some? && prev.read.Some?
    ensures u.writekBps.Some? <==> cur.write.Some? && prev.write.Some?
    ensures u.sendkBps.Some? <==> cur.send.Some? && prev.send.Some?
    ensures u.recvkBps.Some? <==> cur.recv.Some? && prev.recv.Some?
    ensures u.readkB.Some? <==> cur.read.Some?
    ensures u.readkB.Some? ==> u.readkB.value * 1000 <= cur.read.value < (u.readkB.value + 1) * 1000
    ensures u.writekB.Some? <==> cur.write.Some?
    ensures u.writekB.Some? ==> u.writekB.value * 1000 <= cur.write.value < (u.writekB.value + 1) * 1000
    ensures u.sendkB.Some? <==> cur.send.Some?
    ensures u.sendkB.Some? ==> u.sendkB.value * 1000 <= cur.send.value < (u.sendkB.value + 1) * 1000
    ensures u.recvkB.Some? <==> cur.recv.Some?
    ensures u.recvkB.Some? ==> u.recvkB.value * 1000 <= cur.recv.value < (u.recvkB.value + 1) * 1000
    ensures u.used == cur.used && u.available == cur.available && u.ncpu == cur.ncpu
  {
    var cpuDelta := Delta(cur.total, prev.total);
    var systemDelta := Delta(cur.system, prev.system);
    Usage(
      cpuPercentage := CpuPercentage(cpuDelta, systemDelta, cur.ncpu),
      cpuTotal := cpuDelta,
      cpuSystem := systemDelta,
      ncpu := cur.ncpu,
      memPercentage :=
        if cur.used.Some? && cur.available.Some?
        then Some(Percentage(cur.used.value, cur.available.value, 1)) else None,
      used := cur.used,
      available := cur.available,
      readkBps := IoRate(cur.read, prev.read, millis),
      writekBps := IoRate(cur.write, prev.write, millis),
      readkB := MapDiv(cur.read, 1000),
      writekB := MapDiv(cur.write, 1000),
      sendkBps := NetRate(cur.send, prev.send, millis),
      recvkBps := NetRate(cur.recv, prev.recv, millis),
      sendkB := MapDiv(cur.send, 1000),
      recvkB := MapDiv(cur.recv, 1000))
  }

  /** A container that the previous snapshot does not have gets no deltas, no rates and
      no CPU percentage, but still its memory figures and cumulative totals. */
  lemma NewContainerHasNoRates(millis: nat, cur: Json)
    requires millis >= 1000
    ensures var u := UsageOf(millis, ReadStats(cur), ReadStats(Null));
      && u.cpuPercentage.None? && u.cpuTotal.None? && u.cpuSystem.None?
      && u.readkBps.None? && u.writekBps.None? && u.sendkBps.None? && u.recvkBps.None?
      && u.used == ReadStats(cur).used && u.readkB.Some? == ReadStats(cur).read.Some?
  {
  }

  function OptRatio(o: Option<Ratio>): Json {
    match o
    case None => Null
    case Some(Exact(x)) => Float(x)
    case Some(DivByZero) => NonFinite
  }

  /** The object `calc_usage` writes for one container. */
  function UsageToJson(u: Usage): Json {
    Obj([
      ("cpu", Obj([("percentage", OptRatio(u.cpuPercentage)), ("total", OptNum(u.cpuTotal)),
                   ("system", OptNum(u.cpuSystem)), ("ncpu", OptNum(u.ncpu))])),
      ("memory", Obj([("percentage", OptRatio(u.memPercentage)), ("used", OptNum(u.used)),
                      ("available", OptNum(u.available))])),
      ("io", Obj([("readkBps", OptNum(u.readkBps)), ("writekBps", OptNum(u.writekBps)),
                  ("readkB", OptNum(u.readkB)), ("writekB", OptNum(u.writekB))])),
      ("net", Obj([("sendkBps", OptNum(u.sendkBps)), ("recvkBps", OptNum(u.recvkBps)),
                   ("sendkB", OptNum(u.sendkB)), ("recvkB", OptNum(u.recvkB))]))])
  }
}
