/** The collector loop of core/src/log.rs: `calc_usage` over all containers of a
    snapshot, the condition under which a tick is logged, the wall-clock tick schedule
    of `log_json`, and the replay of the daily log into the history buffer by
    `read_log`.

    A snapshot is the document `get_containers_stats` assembles:
    `{time, stats: {<container>: <reshaped stats>, ...}}`. Fetching it, the clock,
    sleeping and the log file are inputs here (sequences of observed values). */
module Collector {
  import opened Wrappers
  import opened JsonValue
  import opened DockerStats
  import LC = LogCache

  /** The collection period, 10 s. */
  const TICK_MILLIS: nat := 10000

  // ---------------------------------------------------------------------------
  // snapshots

  /** The container names of a snapshot, in order. */
  function ContainerNames(snapshot: Json): seq<string> {
    Keys(Entries(Get(snapshot, "stats")))
  }

  /** The snapshot `get_containers_stats` builds from the reshaped stats of each
      container: its time is the first container's time, `null` when there is none. */
  function Snapshot(containers: seq<(string, ContainerStats)>): Json {
    Obj([
      ("time", if containers == [] then Null else OptStr(containers[0].1.time)),
      ("stats", Obj(seq(|containers|, i requires 0 <= i < |containers| =>
                        (containers[i].0, StatsToJson(containers[i].1)))))])
  }

  // ---------------------------------------------------------------------------
  // calc_usage

  /** The usage object of container `name`: its counters in `stats` against those in
      `prev` (a container missing from `prev` reads as having no counters). */
  function ContainerUsage(millis: nat, stats: Json, prev: Json, name: string): Json
    requires millis >= 1000
  {
    UsageToJson(UsageOf(millis, ReadStats(Get(Get(stats, "stats"), name)),
                                ReadStats(Get(Get(prev, "stats"), name))))
  }

  /** The object `calc_usage` starts from: the snapshot's time (the string "null" when
      it has none) and the tick length. */
  function UsagesHeader(millis: nat, stats: Json): Json {
    Obj([("time", Str(AsStr(Get(stats, "time")).GetOr("null"))), ("millis", Num(millis))])
  }

  /** `usages["stats"][name] = usage`: the "stats" member is created on first use. */
  function SetStat(usages: Json, name: string, usage: Json): Json {
    Set(usages, "stats", Set(Get(usages, "stats"), name, usage))
  }

  /** The object after the loop has written `usage(n)` for each of `names`. */
  function AddUsages(header: Json, names: seq<string>, usage: string -> Json): Json
    decreases |names|
  {
    if names == [] then header
    else
      var n := names[|names| - 1];
      SetStat(AddUsages(header, names[..|names| - 1], usage), n, usage(n))
  }

  /** The usage object of each container, as a function of its name. */
  function UsageByName(millis: nat, stats: Json, prev: Json): string -> Json
    requires millis >= 1000
  {
    name => ContainerUsage(millis, stats, prev, name)
  }

  /** What `calc_usage(millis, stats, prev)` returns. */
  function Usages(millis: nat, stats: Json, prev: Json): Json
    requires millis >= 1000
  {
    AddUsages(UsagesHeader(millis, stats), ContainerNames(stats), UsageByName(millis, stats, prev))
  }

  /** Writing a usage leaves "time" and "millis" alone and makes "stats" an object. */
  lemma SetStatKeeps(usages: Json, name: string, usage: Json)
    ensures Get(SetStat(usages, name, usage), "time") == Get(usages, "time")
    ensures Get(SetStat(usages, name, usage), "millis") == Get(usages, "millis")
    ensures Get(SetStat(usages, name, usage), "stats").Obj?
  {
    var stats := Set(Get(usages, "stats"), name, usage);
    SetKeepsOther(usages, "stats", stats, "time");
    SetKeepsOther(usages, "stats", stats, "millis");
  }

  /** Writing a usage inserts it into the entries of "stats". */
  lemma SetStatEntries(usages: Json, name: string, usage: Json)
    ensures Entries(Get(SetStat(usages, name, usage), "stats")) == Insert(Entries(Get(usages, "stats")), name, usage)
  {
  }

  /** The loop leaves "time" and "millis" as they were; with no names it changes
      nothing, and otherwise "stats" is an object. */
  lemma {:induction false} AddUsagesHeader(header: Json, names: seq<string>, usage: string -> Json)
    ensures var r := AddUsages(header, names, usage);
      && Get(r, "time") == Get(header, "time")
      && Get(r, "millis") == Get(header, "millis")
      && (names == [] ==> r == header)
      && (names != [] ==> Get(r, "stats").Obj?)
    decreases |names|
  {
    if names != [] {
      var front := names[..|names| - 1];
      var n := names[|names| - 1];
      AddUsagesHeader(header, front, usage);
      SetStatKeeps(AddUsages(header, front, usage), n, usage(n));
    }
  }

  /** Starting without a "stats" member, the loop leaves one entry per name, each
      name once. */
  lemma {:induction false} AddUsagesDistinct(header: Json, names: seq<string>, usage: string -> Json)
    requires Get(header, "stats") == Null
    ensures var r := AddUsages(header, names, usage);
      && DistinctKeys(Entries(Get(r, "stats")))
    decreases |names|
  {
    if names != [] {
      var front := names[..|names| - 1];
      var n := names[|names| - 1];
      AddUsagesDistinct(header, front, usage);
      var a := AddUsages(header, front, usage);
      var es := Entries(Get(a, "stats"));
      var r := Insert(es, n, usage(n));
      assert Entries(Get(AddUsages(header, names, usage), "stats")) == r by {
        SetStatEntries(a, n, usage(n));
      }
      InsertKeepsDistinct(es, n, usage(n));

    }
  }

  /** Starting without a "stats" member, the loop leaves exactly the names as keys. */
  lemma {:induction false} AddUsagesKeySet(header: Json, names: seq<string>, usage: string -> Json)
    requires Get(header, "stats") == Null
    ensures var r := AddUsages(header, names, usage);
      forall k :: k in Keys(Entries(Get(r, "stats"))) <==> k in names
    decreases |names|
  {
    if names != [] {
      var front := names[..|names| - 1];
      var n := names[|names| - 1];
      AddUsagesKeySet(header, front, usage);
      var a := AddUsages(header, front, usage);
      var es := Entries(Get(a, "stats"));
      SetStatEntries(a, n, usage(n));
      InsertKeys(es, n, usage(n));
      InFrontOrLast(names);
    }
  }

  /** Each name's entry holds that name's usage (a later duplicate name overwrites with
      the same value). */
  lemma {:induction false} AddUsagesValues(header: Json, names: seq<string>, usage: string -> Json)
    ensures var r := AddUsages(header, names, usage);
      forall k :: k in names ==> Get(Get(r, "stats"), k) == usage(k)
    decreases |names|
  {
    if names != [] {
      var front := names[..|names| - 1];
      var n := names[|names| - 1];
      AddUsagesValues(header, front, usage);
      var a := AddUsages(header, front, usage);
      InFrontOrLast(names);
      forall k | k in front && k != n
        ensures Get(Get(SetStat(a, n, usage(n)), "stats"), k) == Get(Get(a, "stats"), k)
      {
        SetKeepsOther(Get(a, "stats"), n, usage(n), k);
      }
    }
  }

  /** What `calc_usage` returns, stated declaratively: "time" is the snapshot's time
      (the string "null" when missing), "millis" the tick length, and "stats" has exactly
      one entry per container of the current snapshot, holding that container's usage;
      with no containers there is no "stats" member at all. */
  lemma UsagesContents(millis: nat, stats: Json, prev: Json)
    requires millis >= 1000
    ensures var r := Usages(millis, stats, prev);
      && Get(r, "time") == Str(AsStr(Get(stats, "time")).GetOr("null"))
      && Get(r, "millis") == Num(millis)
      && (ContainerNames(stats) == [] ==> Get(r, "stats") == Null)
      && (forall k :: k in Keys(Entries(Get(r, "stats"))) <==> k in ContainerNames(stats))
      && DistinctKeys(Entries(Get(r, "stats")))
      && (forall k :: k in ContainerNames(stats) ==> Get(Get(r, "stats"), k) == ContainerUsage(millis, stats, prev, k))
  {
    var header := UsagesHeader(millis, stats);
    var names := ContainerNames(stats);
    var usage := UsageByName(millis, stats, prev);
    assert Get(header, "time") == header.entries[0].1 by { LookupFirst(header.entries, 0); }
    assert Get(header, "millis") == header.entries[1].1 by { LookupFirst(header.entries, 1); }
    assert Get(header, "stats") == Null by {
      LookupFindsKey(header.entries, "stats");
      assert Keys(header.entries) == ["time", "millis"];
    }
    AddUsagesHeader(header, names, usage);
    AddUsagesDistinct(header, names, usage);
    AddUsagesKeySet(header, names, usage);
    AddUsagesValues(header, names, usage);
    forall k | k in names
      ensures usage(k) == ContainerUsage(millis, stats, prev, k)
    {
    }
  }

  /** One more turn of the loop writes one more name. */
  lemma AddUsagesStep(header: Json, names: seq<string>, i: nat, usage: string -> Json)
    requires i < |names|
    ensures AddUsages(header, names[..i + 1], usage)
            == SetStat(AddUsages(header, names[..i], usage), names[i], usage(names[i]))
  {
    TakeOfTake(names, i);
  }

  /** An element of a non-empty sequence is in its front or is its last element. */
  lemma InFrontOrLast<T>(s: seq<T>)
    requires s != []
    ensures forall x :: x in s <==> x in s[..|s| - 1] || x == s[|s| - 1]
  {
    assert s == s[..|s| - 1] + [s[|s| - 1]];
  }

  lemma TakeOfTake<T>(s: seq<T>, i: nat)
    requires i < |s|
    ensures s[..i + 1][..i] == s[..i] && s[..i + 1][i] == s[i]
  {
  }

  /** `calc_usage`: per-container rates of the snapshot `stats` against `prev`. The
      Rust function returns a `Result` but never fails. */
  method CalcUsage(millis: nat, stats: Json, prev: Json) returns (usages: Json)
    requires millis >= 1000
    ensures usages == Usages(millis, stats, prev)
  {
    var names := ContainerNames(stats);
    var header := UsagesHeader(millis, stats);
    var usage := UsageByName(millis, stats, prev);
    usages := header;
    for i := 0 to |names|
      invariant usages == AddUsages(header, names[..i], usage)
    {
      var name := names[i];
      usages := SetStat(usages, name, usage(name));
      AddUsagesStep(header, names, i, usage);
    }
    assert names[..|names|] == names;
  }

  // ---------------------------------------------------------------------------
  // the log condition

  /** The first container's stats of a snapshot, if any. */
  function FirstStat(snapshot: Json): Option<Json> {
    var es := Entries(Get(snapshot, "stats"));
    if es == [] then None else Some(es[0].1)
  }

  /** A tick is logged when both the current and the previous snapshot have a first
      container and both of those carry a "cpu" member. */
  predicate LogCondition(stats: Json, prev: Json) {
    match (FirstStat(stats), FirstStat(prev))
    case (Some(a), Some(b)) => Get(a, "cpu") != Null && Get(b, "cpu") != Null
    case _ => false
  }

  /** For snapshots as `get_containers_stats` builds them, the condition is exactly
      "both snapshots have at least one container"; in particular the first tick,
      whose previous snapshot is the empty object, is never logged. */
  lemma LogConditionOfSnapshots(cur: seq<(string, ContainerStats)>, prev: seq<(string, ContainerStats)>)
    ensures LogCondition(Snapshot(cur), Snapshot(prev)) <==> cur != [] && prev != []
    ensures !LogCondition(Snapshot(cur), Obj([]))
  {
    SnapshotFirstStat(cur);
    SnapshotFirstStat(prev);
  }

  lemma SnapshotFirstStat(cs: seq<(string, ContainerStats)>)
    ensures FirstStat(Snapshot(cs)).Some? <==> cs != []
    ensures cs != [] ==> Get(FirstStat(Snapshot(cs)).value, "cpu").Obj?
  {
    var j := Snapshot(cs);
    assert Get(j, "stats") == j.entries[1].1 by { LookupFirst(j.entries, 1); }
    if cs != [] {
      var s := StatsToJson(cs[0].1);
      assert Get(s, "cpu") == s.entries[1].1 by { LookupFirst(s.entries, 1); }
    }
  }

  // ---------------------------------------------------------------------------
  // the tick schedule

  /** The first tick boundary after `now` (ms since the epoch). */
  function FirstBoundary(now: nat): nat {
    now + (TICK_MILLIS - now % TICK_MILLIS)
  }

  /** The first boundary is the next multiple of the tick strictly later than `now`:
      a multiple, later than `now`, at most one tick away, and no later multiple
      is skipped. */
  lemma FirstBoundaryIsNext(now: nat)
    ensures FirstBoundary(now) % TICK_MILLIS == 0
    ensures now < FirstBoundary(now) <= now + TICK_MILLIS
    ensures forall m: nat :: now < m && m % TICK_MILLIS == 0 ==> FirstBoundary(now) <= m
  {
    var q := now / TICK_MILLIS;
    assert now == q * TICK_MILLIS + now % TICK_MILLIS;
    assert FirstBoundary(now) == (q + 1) * TICK_MILLIS;
    forall m: nat | now < m && m % TICK_MILLIS == 0
      ensures FirstBoundary(now) <= m
    {
      var p := m / TICK_MILLIS;
      assert m == p * TICK_MILLIS;
      assert p * TICK_MILLIS > q * TICK_MILLIS;
      assert q + 1 <= p;
    }
  }

  /** The boundary of tick `k`. */
  function Boundary(now: nat, k: nat): nat {
    FirstBoundary(now) + k * TICK_MILLIS
  }

  /** Every boundary is a multiple of the tick later than `now`, and each tick adds
      exactly one period. */
  lemma BoundaryIsAligned(now: nat, k: nat)
    ensures Boundary(now, k) % TICK_MILLIS == 0
    ensures Boundary(now, k) > now
    ensures Boundary(now, k + 1) == Boundary(now, k) + TICK_MILLIS
  {
    FirstBoundaryIsNext(now);
    var q := FirstBoundary(now) / TICK_MILLIS;
    assert FirstBoundary(now) == q * TICK_MILLIS;
    assert Boundary(now, k) == (q + k) * TICK_MILLIS;
  }

  /** `timing.saturating_sub(now) as u64`: the wait before tick `timing` given the clock
      reading `clock` (the cast keeps the low 64 bits). */
  function WaitMillis(timing: nat, clock: nat): nat {
    SaturatingSub(timing, clock) % U64_LIMIT
  }

  /** The wait is 0 once the boundary has passed, and otherwise exactly the time left
      when that fits in 64 bits. */
  lemma WaitMillisMeaning(timing: nat, clock: nat)
    ensures WaitMillis(timing, clock) < U64_LIMIT
    ensures clock >= timing ==> WaitMillis(timing, clock) == 0
    ensures clock < timing && timing - clock < U64_LIMIT ==> clock + WaitMillis(timing, clock) == timing
  {
  }

  // ---------------------------------------------------------------------------
  // log_json

  /** The snapshot before snapshot `n`: the empty object before the first one. */
  function Previous(ss: seq<Json>, n: nat): Json
    requires n <= |ss|
  {
    if n == 0 then Obj([]) else ss[n - 1]
  }

  /** What one tick with snapshot `stats` logs, given the previous snapshot. */
  function LogStep(stats: Json, prev: Json): seq<Json> {
    if LogCondition(stats, prev) then [Usages(TICK_MILLIS, stats, prev)] else []
  }

  /** The usage documents logged (and added to the history) for the first `n`
      snapshots of `ss`, fetched one per tick. */
  function Logged(ss: seq<Json>, n: nat): seq<Json>
    requires n <= |ss|
  {
    if n == 0 then [] else Logged(ss, n - 1) + LogStep(ss[n - 1], Previous(ss, n - 1))
  }

  /** Adding `step` to a history that holds the last values of `base + done` leaves the
      last values of `base + (done + step)`. */
  lemma HistoryStep<T>(base: seq<T>, done: seq<T>, step: seq<T>)
    ensures LC.LastN(LC.LastN(base + done, LC.MAX_LOG_LENGTH) + step, LC.MAX_LOG_LENGTH)
            == LC.LastN(base + (done + step), LC.MAX_LOG_LENGTH)
  {
    LC.LastNOfLastN(base + done, step, LC.MAX_LOG_LENGTH);
    assert base + done + step == base + (done + step);
  }

  /** One more tick of the loop keeps the history equal to the last documents logged
      so far. */
  lemma LoggedStep(base: seq<Json>, ok: seq<Json>, i: nat, data: seq<Json>)
    requires i < |ok|
    requires data == LC.LastN(LC.LastN(base + Logged(ok, i), LC.MAX_LOG_LENGTH) + LogStep(ok[i], Previous(ok, i)), LC.MAX_LOG_LENGTH)
    ensures data == LC.LastN(base + Logged(ok, i + 1), LC.MAX_LOG_LENGTH)
  {
    HistoryStep(base, Logged(ok, i), LogStep(ok[i], Previous(ok, i)));
  }

  /** The empty object that stands before the first snapshot has no container. */
  lemma NoFirstStatBeforeFirst()
    ensures FirstStat(Obj([])).None?
  {
  }

  /** The first tick is never logged, so fewer documents than ticks are logged. */
  lemma {:induction false} LoggedFewer(ss: seq<Json>, n: nat)
    requires 0 < n <= |ss|
    ensures |Logged(ss, n)| < n
  {
    if n == 1 {
      NoFirstStatBeforeFirst();
      assert LogStep(ss[0], Previous(ss, 0)) == [];
    } else {
      LoggedFewer(ss, n - 1);
    }
  }

  /** A snapshot whose first container carries a "cpu" member. */
  predicate HasCpu(snapshot: Json) {
    FirstStat(snapshot).Some? && Get(FirstStat(snapshot).value, "cpu") != Null
  }

  /** When every snapshot has a first container with a "cpu" member, every tick after
      the first is logged. */
  lemma {:induction false} LoggedAllButFirst(ss: seq<Json>, n: nat)
    requires 0 < n <= |ss|
    requires forall i :: 0 <= i < |ss| ==> HasCpu(ss[i])
    ensures |Logged(ss, n)| == n - 1
  {
    if n == 1 {
      NoFirstStatBeforeFirst();
      assert LogStep(ss[0], Previous(ss, 0)) == [];
    } else {
      LoggedAllButFirst(ss, n - 1);
      assert HasCpu(ss[n - 1]) && HasCpu(ss[n - 2]);
      assert LogCondition(ss[n - 1], Previous(ss, n - 1));
    }
  }

  /** The waits of the first `n` ticks, given the clock reading before each. */
  function Waits(start: nat, clocks: seq<nat>, n: nat): (ws: seq<nat>)
    requires n <= |clocks|
  {
    if n == 0 then [] else Waits(start, clocks, n - 1) + [WaitMillis(Boundary(start, n - 1), clocks[n - 1])]
  }

  /** The wait of tick `i` follows the waits of the ticks before it. */
  lemma WaitsStep(start: nat, clocks: seq<nat>, i: nat, waits: seq<nat>, timing: nat)
    requires i < |clocks|
    requires waits == Waits(start, clocks, i) && timing == Boundary(start, i)
    ensures waits + [WaitMillis(timing, clocks[i])] == Waits(start, clocks, i + 1)
  {
  }

  /** Tick `k` waits until boundary `k`, from clock reading `clocks[k]`. */
  lemma {:induction false} WaitsAt(start: nat, clocks: seq<nat>, n: nat)
    requires n <= |clocks|
    ensures |Waits(start, clocks, n)| == n
    ensures forall k :: 0 <= k < n ==> Waits(start, clocks, n)[k] == WaitMillis(Boundary(start, k), clocks[k])
  {
    if n > 0 {
      WaitsAt(start, clocks, n - 1);
    }
  }

  /** The snapshots fetched before the first failed fetch. */
  function OkPrefix(fetched: seq<Option<Json>>): (r: seq<Json>)
    ensures |r| <= |fetched|
  {
    if fetched == [] || fetched[0].None? then [] else [fetched[0].value] + OkPrefix(fetched[1..])
  }

  /** The prefix holds the successful fetches up to the first failure, which it
      stops at. */
  lemma {:induction false} OkPrefixUpToFailure(fetched: seq<Option<Json>>)
    ensures var r := OkPrefix(fetched);
      && (forall i :: 0 <= i < |r| ==> fetched[i] == Some(r[i]))
      && (|r| < |fetched| ==> fetched[|r|].None?)
  {
    if fetched != [] && fetched[0].Some? {
      OkPrefixUpToFailure(fetched[1..]);
    }
  }

  /** Tick `i` of the prefix: a successful fetch inside it is its element; a failed one
      ends it. */
  lemma OkPrefixAt(fetched: seq<Option<Json>>, i: nat)
    requires i <= |OkPrefix(fetched)| && i < |fetched|
    ensures fetched[i].Some? ==> i < |OkPrefix(fetched)| && OkPrefix(fetched)[i] == fetched[i].value
    ensures fetched[i].None? ==> i == |OkPrefix(fetched)|
  {
    OkPrefixUpToFailure(fetched);
  }

  /** One tick of `log_json` after the fetch: when the condition holds, the usages of
      `stats` against `prev` go into the history. */
  method LogTick(cache: LC.LogCache, stats: Json, prev: Json)
    requires cache.Valid()
    modifies cache
    ensures cache.Valid()
    ensures cache.Data() == LC.LastN(old(cache.Data()) + LogStep(stats, prev), LC.MAX_LOG_LENGTH)
  {
    if LogCondition(stats, prev) {
      var usage := CalcUsage(TICK_MILLIS, stats, prev);
      cache.AddAndRotate(usage);
    } else {
      assert old(cache.Data()) + [] == old(cache.Data());
    }
  }

  /** `LogTick` on tick `i` of the successful fetches `ok`. */
  method LogTickOf(cache: LC.LogCache, stats: Json, prev: Json, ghost base: seq<Json>, ghost ok: seq<Json>, ghost i: nat)
    requires cache.Valid()
    requires i < |ok| && stats == ok[i] && prev == Previous(ok, i)
    requires cache.Data() == LC.LastN(base + Logged(ok, i), LC.MAX_LOG_LENGTH)
    modifies cache
    ensures cache.Valid()
    ensures cache.Data() == LC.LastN(base + Logged(ok, i + 1), LC.MAX_LOG_LENGTH)
  {
    LogTick(cache, stats, prev);
    LoggedStep(base, ok, i, cache.Data());
  }

  /** The `log_json` loop over a finite run of ticks. Tick `k` waits for boundary `k`,
      given the clock reading `clocks[k]`, then fetches snapshot `fetched[k]` (`None`:
      the fetch failed, which ends the loop with an error); a logged tick adds its usage
      document to the history. */
  method LogJson(cache: LC.LogCache, start: nat, clocks: seq<nat>, fetched: seq<Option<Json>>)
      returns (waits: seq<nat>, timing: nat, failed: bool)
    requires cache.Valid()
    requires |clocks| == |fetched|
    modifies cache
    ensures cache.Valid()
    ensures failed <==> |OkPrefix(fetched)| < |fetched|
    ensures |waits| == if failed then |OkPrefix(fetched)| + 1 else |fetched|
    ensures waits == Waits(start, clocks, |waits|)
    ensures timing == Boundary(start, |OkPrefix(fetched)|)
    ensures var ok := OkPrefix(fetched);
      cache.Data() == LC.LastN(old(cache.Data()) + Logged(ok, |ok|), LC.MAX_LOG_LENGTH)
  {
    ghost var base := cache.Data();
    ghost var ok := OkPrefix(fetched);
    timing := FirstBoundary(start);
    var prev := Obj([]);
    waits := [];
    failed := false;
    var i := 0;
    LC.AppendNothing(base);
    while i < |fetched|
      invariant 0 <= i <= |ok|
      invariant timing == Boundary(start, i)
      invariant |waits| == i
      invariant waits == Waits(start, clocks, i)
      invariant prev == Previous(ok, i)
      invariant cache.Valid()
      invariant cache.Data() == LC.LastN(base + Logged(ok, i), LC.MAX_LOG_LENGTH)
    {
      WaitsStep(start, clocks, i, waits, timing);
      waits := waits + [WaitMillis(timing, clocks[i])];
      OkPrefixAt(fetched, i);
      if fetched[i].None? {
        failed := true;
        assert i == |ok|;
        return;
      }
      var stats := fetched[i].value;
      LogTickOf(cache, stats, prev, base, ok, i);
      BoundaryIsAligned(start, i);
      timing := timing + TICK_MILLIS;
      prev := stats;
      i := i + 1;
    }
    assert i == |ok|;
  }

  // ---------------------------------------------------------------------------
  // read_log

  /** The values of lines `a` up to (not including) `b` of the log, in order (a line
      that did not parse stands as `null`; `read_log` stops before using one). */
  function ValuesFrom(lines: seq<Option<Json>>, a: nat, b: nat): (vs: seq<Json>)
    requires b <= |lines|
    decreases b
  {
    if b <= a then [] else ValuesFrom(lines, a, b - 1) + [lines[b - 1].GetOr(Null)]
  }

  /** `ValuesFrom` holds one value per line of the range. */
  lemma {:induction false} ValuesFromLength(lines: seq<Option<Json>>, a: nat, b: nat)
    requires a <= b <= |lines|
    ensures |ValuesFrom(lines, a, b)| == b - a
    decreases b
  {
    if a < b {
      ValuesFromLength(lines, a, b - 1);
    }
  }

  /** `ValuesFrom` holds one value per line of the range, the value of that line. */
  lemma {:induction false} ValuesFromAt(lines: seq<Option<Json>>, a: nat, b: nat)
    requires a <= b <= |lines|
    ensures |ValuesFrom(lines, a, b)| == b - a
    ensures forall k :: a <= k < b && lines[k].Some? ==> ValuesFrom(lines, a, b)[k - a] == lines[k].value
    decreases b
  {
    if a < b {
      ValuesFromAt(lines, a, b - 1);
    }
  }

  /** A range splits into its front and its back. */
  lemma {:induction false} ValuesFromSplit(lines: seq<Option<Json>>, a: nat, m: nat, b: nat)
    requires a <= m <= b <= |lines|
    ensures ValuesFrom(lines, a, b) == ValuesFrom(lines, a, m) + ValuesFrom(lines, m, b)
    decreases b
  {
    if m < b {
      ValuesFromSplit(lines, a, m, b - 1);
    }
  }

  /** The index (from 0) of the first line `read_log` parses: the skip count is
      `nlines ⊖ MAX_LOG_LENGTH`, compared with a counter that starts at 1, so one line
      fewer than that is skipped. */
  function FirstRead(nlines: nat): (f: nat)
    ensures f <= nlines
    ensures nlines > LC.MAX_LOG_LENGTH ==> nlines - f == LC.MAX_LOG_LENGTH + 1
    ensures nlines <= LC.MAX_LOG_LENGTH + 1 ==> f == 0
  {
    SaturatingSub(SaturatingSub(nlines, LC.MAX_LOG_LENGTH), 1)
  }

  /** Line `m` is the first line from `a` on that does not parse: the `?` on
      `json::parse` returns there, after the lines before it were added. */
  predicate StoppedAt(lines: seq<Option<Json>>, a: nat, m: nat) {
    a <= m < |lines| && lines[m].None? && forall k :: a <= k < m ==> lines[k].Some?
  }

  /** `read_log` over the lines of the daily log, each already parsed (`None`: the line
      could not be read or is not JSON, which stops the replay with an error). */
  method ReadLog(cache: LC.LogCache, lines: seq<Option<Json>>) returns (ok: bool)
    requires cache.Valid()
    modifies cache
    ensures cache.Valid()
    ensures ok <==> forall k :: FirstRead(|lines|) <= k < |lines| ==> lines[k].Some?
    ensures ok ==> cache.Data() == LC.LastN(old(cache.Data()) + ValuesFrom(lines, FirstRead(|lines|), |lines|), LC.MAX_LOG_LENGTH)
    ensures !ok ==> exists m :: StoppedAt(lines, FirstRead(|lines|), m)
                                && cache.Data() == LC.LastN(old(cache.Data()) + ValuesFrom(lines, FirstRead(|lines|), m), LC.MAX_LOG_LENGTH)
  {
    ghost var base := cache.Data();
    ghost var first := FirstRead(|lines|);
    var nlinesToSkip := SaturatingSub(|lines|, LC.MAX_LOG_LENGTH);
    var iline := 0;
    NothingReadYet(base, lines, first, 0);
    assert first == if nlinesToSkip == 0 then 0 else nlinesToSkip - 1;
    for k := 0 to |lines|
      invariant iline == k
      invariant cache.Valid()
      invariant forall m :: first <= m < k ==> lines[m].Some?
      invariant cache.Data() == LC.LastN(base + ValuesFrom(lines, first, k), LC.MAX_LOG_LENGTH)
    {
      iline := iline + 1;
      if iline < nlinesToSkip {
        NothingReadYet(base, lines, first, k);
        NothingReadYet(base, lines, first, k + 1);
        continue;
      }
      assert first <= k;
      if lines[k].None? {
        assert StoppedAt(lines, first, k);
        return false;
      }
      var line := lines[k].value;
      HistoryStep(base, ValuesFrom(lines, first, k), [line]);
      assert ValuesFrom(lines, first, k + 1) == ValuesFrom(lines, first, k) + [line];
      cache.AddAndRotate(line);
    }
    return true;
  }

  /** Before line `a` nothing has been added to the history. */
  lemma NothingReadYet(base: seq<Json>, lines: seq<Option<Json>>, a: nat, b: nat)
    requires b <= a && b <= |lines|
    requires |base| <= LC.MAX_LOG_LENGTH
    ensures LC.LastN(base + ValuesFrom(lines, a, b), LC.MAX_LOG_LENGTH) == base
  {
    LC.AppendNothing(base);
  }

  /** Skipping the first lines of a long log changes nothing: whatever the history
      held before, replaying from `FirstRead` leaves the same buffer as replaying every
      line, namely the last min(N, MAX_LOG_LENGTH) lines of the log (the extra line read
      past the skip count is rotated out again). */
  lemma ReadLogKeepsLastLines(base: seq<Json>, lines: seq<Option<Json>>)
    ensures LC.LastN(base + ValuesFrom(lines, FirstRead(|lines|), |lines|), LC.MAX_LOG_LENGTH)
            == LC.LastN(base + ValuesFrom(lines, 0, |lines|), LC.MAX_LOG_LENGTH)
  {
    var f := FirstRead(|lines|);
    if f > 0 {
      var front := ValuesFrom(lines, 0, f);
      var tail := ValuesFrom(lines, f, |lines|);
      ValuesFromSplit(lines, 0, f, |lines|);
      ValuesFromLength(lines, f, |lines|);
      assert base + (front + tail) == (base + front) + tail;
      LC.LastNOfLongSuffix(base + front, tail, LC.MAX_LOG_LENGTH);
      LC.LastNOfLongSuffix(base, tail, LC.MAX_LOG_LENGTH);
    }
  }
}
