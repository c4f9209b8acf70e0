/** The host record of src/cephylas/log.rs: `format_log` turns one reading of the four
    `/proc` sources into a JSON object with a "time" key, one key per source that was
    read and an "errors" array with one message per source that failed; `json_cpu`,
    `json_mem`, `json_disk` and `json_net` build the per-source objects. */
module HostLog {
  import opened Wrappers
  import opened Text
  import opened JsonValue
  import opened ProcFields
  import Cpu
  import Mem
  import Disk
  import Net

  /** One reading; `timestamp` is the text `format!("{:?}", ...)` gives for its time.
      `super::ResourceInfo` is not part of this model: each field is taken to hold
      its reader's parse result, with that reader's error. */
  datatype ResourceInfo = ResourceInfo(
    timestamp: string,
    cpu: Result<Cpu.CpuInfo, FieldError>,
    mem: Result<Mem.MemInfo, FieldError>,
    disk: Result<Disk.DiskInfo, FieldError>,
    net: Result<Net.NetInfo, FieldError>)

  // ---------------------------------------------------------------------------
  // error messages

  datatype Source = CpuSource | MemSource | DiskSource | NetSource

  /** The sources in the order `format_log` visits them. */
  const Sources: seq<Source> := [CpuSource, MemSource, DiskSource, NetSource]

  function Ordinal(c: Source): nat {
    match c
    case CpuSource => 0
    case MemSource => 1
    case DiskSource => 2
    case NetSource => 3
  }

  /** The key of a source's object in the record. */
  function KeyOf(c: Source): string {
    match c
    case CpuSource => "cpu"
    case MemSource => "mem"
    case DiskSource => "disk"
    case NetSource => "net"
  }

  /** The name of the source's error type, which starts each of its messages. */
  function TypeName(c: Source): string {
    match c
    case CpuSource => "CpuInfoError"
    case MemSource => "MemInfoError"
    case DiskSource => "DiskInfoError"
    case NetSource => "NetInfoError"
  }

  /** `ParseIntError::to_string()`. */
  function IntErrorText(k: IntErrorKind): string {
    match k
    case Empty => "cannot parse integer from empty string"
    case InvalidDigit => "invalid digit found in string"
    case PosOverflow => "number too large to fit in target type"
    case NegOverflow => "number too small to fit in target type"
  }

  /** The `Display` text of a source's error: the cpu and disk parsers say "Failed to
      parse N entry", the memory and network parsers "Invalid entry N :". */
  function ErrorText(c: Source, e: FieldError): (t: string)
    ensures StartsWith(t, TypeName(c) + ", ")
  {
    var head := TypeName(c) + ", ";
    var body :=
      match e
      case IoFailure(m) => "IOError: " + m
      case EntryNotFound(n) => "Entry " + n + " not found"
      case InvalidEntry(n, k) =>
        if c == CpuSource || c == DiskSource then "Failed to parse " + n + " entry: " + IntErrorText(k)
        else "Invalid entry " + n + " : " + IntErrorText(k);
    assert (head + body)[..|head|] == head;
    head + body
  }

  // ---------------------------------------------------------------------------
  // the per-source objects

  /** `json_cpu`. */
  function JsonCpu(c: Cpu.CpuInfo): Json {
    Obj([("usage", Float(Cpu.CalcCpuUsage(c)))])
  }

  /** A `u64` subtraction as the release build computes it: modulo 2^64. */
  function Wrap64(x: int): (r: int)
    ensures 0 <= r < U64_LIMIT
    ensures 0 <= x < U64_LIMIT ==> r == x
  {
    x % U64_LIMIT
  }

  /** An `f32` quotient: infinite or NaN when the divisor is 0. */
  function Ratio(num: int, den: int): (r: Json)
    ensures den == 0 <==> r.NonFinite?
    ensures den != 0 ==> r.Float? && r.r * (den as real) == num as real
  {
    if den == 0 then NonFinite else Float(num as real / den as real)
  }

  /** `json_mem`. */
  function JsonMem(m: Mem.MemInfo): Json {
    var used := Wrap64(m.total - m.free);
    Obj([
      ("usage", Ratio(used, m.total)),
      ("total", Num(m.total)),
      ("used", Num(used)),
      ("free", Num(m.free)),
      ("swapUsage", Ratio(Wrap64(m.swapTotal - m.swapFree), m.swapTotal)),
      ("swapTotal", Num(m.swapTotal)),
      ("swapFree", Num(m.swapFree))])
  }

  /** With no more free memory than memory in total (as the kernel reports it), "used"
      is the difference and "usage" the used share of the total. */
  lemma JsonMemUsed(m: Mem.MemInfo)
    requires 0 <= m.free <= m.total < U64_LIMIT
    ensures Get(JsonMem(m), "used") == Num(m.total - m.free)
    ensures Get(JsonMem(m), "usage") == Ratio(m.total - m.free, m.total)
  {
    var es := JsonMem(m).entries;
    assert es[0] == ("usage", Ratio(m.total - m.free, m.total));
    assert es[1].0 == "total" && es[2] == ("used", Num(m.total - m.free));
    assert |"usage"| != |"used"| && |"total"| != |"used"|;
    LookupFirst(es, 0);
    LookupFirst(es, 2);
  }

  /** The raw sizes are copied through. */
  lemma JsonMemCopies(m: Mem.MemInfo)
    ensures Get(JsonMem(m), "total") == Num(m.total) && Get(JsonMem(m), "free") == Num(m.free)
    ensures Get(JsonMem(m), "swapTotal") == Num(m.swapTotal) && Get(JsonMem(m), "swapFree") == Num(m.swapFree)
  {
    var es := JsonMem(m).entries;
    assert es[0].0 == "usage" && es[1] == ("total", Num(m.total)) && es[2].0 == "used";
    assert es[3] == ("free", Num(m.free)) && es[4].0 == "swapUsage";
    assert es[5] == ("swapTotal", Num(m.swapTotal)) && es[6] == ("swapFree", Num(m.swapFree));
    assert "usage"[1] != "total"[1];
    assert |"usage"| != |"free"| && |"total"| != |"free"| && |"used"| == |"free"| && "used"[0] != "free"[0];
    assert "swapUsage"[4] != "swapTotal"[4] && "swapTotal"[4] != "swapFree"[4];
    LookupFirst(es, 1);
    LookupFirst(es, 3);
    LookupFirst(es, 5);
    LookupFirst(es, 6);
  }

  /** `n / 2` on an `i64`: the quotient rounded toward zero. */
  function Half(n: int): (r: int)
    ensures n >= 0 ==> 0 <= 2 * r <= n < 2 * r + 2
    ensures n < 0 ==> 2 * r - 2 < n <= 2 * r <= 0
  {
    if n >= 0 then n / 2 else -((-n) / 2)
  }

  /** `json_disk`: completed reads and writes halved, rounding toward zero. */
  function JsonDisk(d: Disk.DiskInfo): Json {
    Obj([("read", Num(Half(d.readsCompleted))), ("write", Num(Half(d.writesCompleted)))])
  }

  /** "read" and "write" are the completed reads and writes halved: twice the value is
      the count, or one less than it when the count is odd. */
  lemma JsonDiskHalves(d: Disk.DiskInfo)
    requires d.readsCompleted >= 0 && d.writesCompleted >= 0
    ensures Get(JsonDisk(d), "read").Num? && Get(JsonDisk(d), "write").Num?
    ensures var r := Get(JsonDisk(d), "read").n; 0 <= 2 * r <= d.readsCompleted < 2 * r + 2
    ensures var w := Get(JsonDisk(d), "write").n; 0 <= 2 * w <= d.writesCompleted < 2 * w + 2
  {
    var es := JsonDisk(d).entries;
    assert es[0] == ("read", Num(Half(d.readsCompleted)));
    assert es[1] == ("write", Num(Half(d.writesCompleted)));
    assert "read"[0] != "write"[0];
    LookupFirst(es, 0);
    LookupFirst(es, 1);
  }

  /** Bits per mebibit. */
  const MEBI: int := 1024 * 1024

  /** `json_net`: bytes times eight over 2^20, in megabits. */
  function JsonNet(n: Net.NetInfo): Json {
    Obj([("send", Float((n.tx.bytes * 8) as real / MEBI as real)),
         ("recv", Float((n.rx.bytes * 8) as real / MEBI as real))])
  }

  /** "send" and "recv" are the transmitted and received bytes in mebibits: times 2^20
      they give the bit counts back. */
  lemma JsonNetMegabits(n: Net.NetInfo)
    ensures Get(JsonNet(n), "send").Float? && Get(JsonNet(n), "recv").Float?
    ensures Get(JsonNet(n), "send").r * (MEBI as real) == (n.tx.bytes * 8) as real
    ensures Get(JsonNet(n), "recv").r * (MEBI as real) == (n.rx.bytes * 8) as real
  {
    var es := JsonNet(n).entries;
    assert es[0] == ("send", Float((n.tx.bytes * 8) as real / MEBI as real));
    assert es[1] == ("recv", Float((n.rx.bytes * 8) as real / MEBI as real));
    assert "send"[0] != "recv"[0];
    LookupFirst(es, 0);
    LookupFirst(es, 1);
  }

  // ---------------------------------------------------------------------------
  // format_log

  /** What each source contributes: its object, or its error. */
  function CpuOutcome(info: ResourceInfo): Result<Json, FieldError> {
    match info.cpu case Ok(v) => Ok(JsonCpu(v)) case Err(e) => Err(e)
  }

  function MemOutcome(info: ResourceInfo): Result<Json, FieldError> {
    match info.mem case Ok(v) => Ok(JsonMem(v)) case Err(e) => Err(e)
  }

  function DiskOutcome(info: ResourceInfo): Result<Json, FieldError> {
    match info.disk case Ok(v) => Ok(JsonDisk(v)) case Err(e) => Err(e)
  }

  function NetOutcome(info: ResourceInfo): Result<Json, FieldError> {
    match info.net case Ok(v) => Ok(JsonNet(v)) case Err(e) => Err(e)
  }

  /** The outcomes of one reading, in visiting order. */
  function Outcomes(info: ResourceInfo): (outs: seq<Result<Json, FieldError>>)
    ensures |outs| == |Sources|
  {
    [CpuOutcome(info), MemOutcome(info), DiskOutcome(info), NetOutcome(info)]
  }

  /** The entry a source that was read adds. */
  function EntryOf(c: Source, r: Result<Json, FieldError>): seq<(string, Json)> {
    if r.Ok? then [(KeyOf(c), r.value)] else []
  }

  /** The message a source that failed adds. */
  function MessageOf(c: Source, r: Result<Json, FieldError>): seq<string> {
    if r.Err? then [ErrorText(c, r.error)] else []
  }

  /** The entries added by the first `n` sources. */
  function Collected(outs: seq<Result<Json, FieldError>>, n: nat): seq<(string, Json)>
    requires n <= |outs| == |Sources|
  {
    if n == 0 then [] else Collected(outs, n - 1) + EntryOf(Sources[n - 1], outs[n - 1])
  }

  /** The messages pushed by the first `n` sources. */
  function Pushed(outs: seq<Result<Json, FieldError>>, n: nat): seq<string>
    requires n <= |outs| == |Sources|
  {
    if n == 0 then [] else Pushed(outs, n - 1) + MessageOf(Sources[n - 1], outs[n - 1])
  }

  function Strs(ms: seq<string>): (r: seq<Json>)
    ensures |r| == |ms| && forall k :: 0 <= k < |ms| ==> r[k] == Str(ms[k])
  {
    if ms == [] then [] else [Str(ms[0])] + Strs(ms[1..])
  }

  /** The record as its list of entries: the time, the object of each source that was
      read, and the messages if there are any. */
  function RecordEntries(ts: string, outs: seq<Result<Json, FieldError>>): seq<(string, Json)>
    requires |outs| == |Sources|
  {
    [("time", Str(ts))] + Collected(outs, |Sources|) + ErrorsEntry(outs)
  }

  /** The messages of one reading. */
  function Messages(info: ResourceInfo): seq<string> {
    Pushed(Outcomes(info), |Sources|)
  }

  /** The record `format_log` builds for one reading. */
  function LogEntries(info: ResourceInfo): seq<(string, Json)> {
    RecordEntries(info.timestamp, Outcomes(info))
  }

  lemma {:induction false} StrsAppend(a: seq<string>, b: seq<string>)
    ensures Strs(a + b) == Strs(a) + Strs(b)
  {
    assert |Strs(a + b)| == |Strs(a) + Strs(b)|;
    forall k | 0 <= k < |a + b| ensures Strs(a + b)[k] == (Strs(a) + Strs(b))[k] {
      if k < |a| {
        assert (a + b)[k] == a[k];
      } else {
        assert (a + b)[k] == b[k - |a|];
      }
    }
  }

  /** The first letter of a source's key; no two sources share one. */
  function Initial(c: Source): (ch: char)
    ensures |KeyOf(c)| > 0 && KeyOf(c)[0] == ch
    ensures ch != 't' && ch != 'e'
  {
    match c
    case CpuSource => 'c'
    case MemSource => 'm'
    case DiskSource => 'd'
    case NetSource => 'n'
  }

  /** No two sources share a first letter. */
  lemma InitialsDistinct(n: nat)
    requires n < |Sources|
    ensures forall j :: 0 <= j < n ==> Initial(Sources[j]) != Initial(Sources[n])
  {
    assert Sources[0] == CpuSource && Sources[1] == MemSource;
    assert Sources[2] == DiskSource && Sources[3] == NetSource;
  }

  /** A key whose first letter is not that of any of the first `n` sources is not
      among the keys they add. */
  lemma {:induction false} CollectedFresh(outs: seq<Result<Json, FieldError>>, n: nat, key: string)
    requires n <= |outs| == |Sources|
    requires |key| > 0 && forall j :: 0 <= j < n ==> Initial(Sources[j]) != key[0]
    ensures key !in Keys(Collected(outs, n))
  {
    if n > 0 {
      CollectedFresh(outs, n - 1, key);
      var c := Sources[n - 1];
      KeysConcat(Collected(outs, n - 1), EntryOf(c, outs[n - 1]));
      assert Initial(c) != key[0];
    }
  }

  /** One `match` of `format_log`, on the source at position `n`: a source that was
      read sets its own key, which the object does not have yet; a source that failed
      pushes its message. */
  method Record(data: Json, errors: seq<Json>, outs: seq<Result<Json, FieldError>>, n: nat, ghost ts: string)
    returns (data': Json, errors': seq<Json>)
    requires n < |outs| == |Sources|
    requires data == Obj([("time", Str(ts))] + Collected(outs, n))
    requires errors == Strs(Pushed(outs, n))
    ensures data' == Obj([("time", Str(ts))] + Collected(outs, n + 1))
    ensures errors' == Strs(Pushed(outs, n + 1))
  {
    var c := Sources[n];
    StrsAppend(Pushed(outs, n), MessageOf(c, outs[n]));
    match outs[n] {
      case Ok(v) =>
        InitialsDistinct(n);
        CollectedFresh(outs, n, KeyOf(c));
        KeysConcat([("time", Str(ts))], Collected(outs, n));
        AppendNewKey(data.entries, KeyOf(c), v);
        data' := Set(data, KeyOf(c), v);
        assert data'.entries == [("time", Str(ts))] + (Collected(outs, n) + EntryOf(c, outs[n]));
        errors' := errors;
      case Err(e) =>
        data' := data;
        errors' := errors + [Str(ErrorText(c, e))];
    }
  }

  /** Each of the first `n` sources that was read is found under its key, and no
      other source's key is there. */
  lemma {:induction false} CollectedLookup(outs: seq<Result<Json, FieldError>>, n: nat, j: nat)
    requires n <= |outs| == |Sources| && j < |Sources|
    ensures Lookup(Collected(outs, n), KeyOf(Sources[j]))
            == if j < n && outs[j].Ok? then Some(outs[j].value) else None
  {
    if n > 0 {
      CollectedLookup(outs, n - 1, j);
      var c := Sources[n - 1];
      LookupConcat(Collected(outs, n - 1), EntryOf(c, outs[n - 1]), KeyOf(Sources[j]));
      if j < n - 1 {
        InitialsDistinct(n - 1);
      } else if j > n - 1 {
        InitialsDistinct(j);
      }
    }
  }

  /** No message is pushed exactly when each of the first `n` sources was read. */
  lemma {:induction false} PushedNone(outs: seq<Result<Json, FieldError>>, n: nat)
    requires n <= |outs| == |Sources|
    ensures Pushed(outs, n) == [] <==> forall j :: 0 <= j < n ==> outs[j].Ok?
  {
    if n > 0 {
      PushedNone(outs, n - 1);
    }
  }

  /** The message of each of the first `n` sources that failed is pushed, and every
      message pushed is the message of one of them. */
  lemma {:induction false} PushedMessages(outs: seq<Result<Json, FieldError>>, n: nat)
    requires n <= |outs| == |Sources|
    ensures forall j :: 0 <= j < n && outs[j].Err? ==> ErrorText(Sources[j], outs[j].error) in Pushed(outs, n)
    ensures forall m :: m in Pushed(outs, n) ==>
              exists j :: 0 <= j < n && outs[j].Err? && m == ErrorText(Sources[j], outs[j].error)
  {
    if n > 0 {
      PushedMessages(outs, n - 1);
      var last := MessageOf(Sources[n - 1], outs[n - 1]);
      assert Pushed(outs, n) == Pushed(outs, n - 1) + last;
      forall m | m in Pushed(outs, n)
        ensures exists j :: 0 <= j < n && outs[j].Err? && m == ErrorText(Sources[j], outs[j].error)
      {
        if m !in Pushed(outs, n - 1) {
          assert m in last;
          assert outs[n - 1].Err? && m == ErrorText(Sources[n - 1], outs[n - 1].error);
        }
      }
    }
  }

  /** Appending an entry with a new key keeps the keys distinct. */
  lemma DistinctAppend(es: seq<(string, Json)>, key: string, v: Json)
    requires DistinctKeys(es) && key !in Keys(es)
    ensures DistinctKeys(es + [(key, v)])
  {
    assert forall i :: 0 <= i < |es| ==> es[i].0 == Keys(es)[i];
  }

  /** The time and the entries of the first `n` sources carry distinct keys. */
  lemma {:induction false} CollectedDistinct(ts: string, outs: seq<Result<Json, FieldError>>, n: nat)
    requires n <= |outs| == |Sources|
    ensures DistinctKeys([("time", Str(ts))] + Collected(outs, n))
  {
    if n > 0 {
      CollectedDistinct(ts, outs, n - 1);
      var c := Sources[n - 1];
      var prefix := [("time", Str(ts))] + Collected(outs, n - 1);
      assert [("time", Str(ts))] + Collected(outs, n) == prefix + EntryOf(c, outs[n - 1]);
      if outs[n - 1].Ok? {
        InitialsDistinct(n - 1);
        CollectedFresh(outs, n - 1, KeyOf(c));
        KeysConcat([("time", Str(ts))], Collected(outs, n - 1));
        DistinctAppend(prefix, KeyOf(c), outs[n - 1].value);
      }
    }
  }

  /** The "errors" entry, present when a message was pushed. */
  function ErrorsEntry(outs: seq<Result<Json, FieldError>>): seq<(string, Json)>
    requires |outs| == |Sources|
  {
    var messages := Pushed(outs, |Sources|);
    if messages != [] then [("errors", Arr(Strs(messages)))] else []
  }

  /** The record holds the time, and the object of exactly the sources that were read,
      each under its own key. */
  lemma RecordSources(ts: string, outs: seq<Result<Json, FieldError>>, j: nat)
    requires |outs| == |Sources| && j < |Sources|
    ensures Lookup(RecordEntries(ts, outs), "time") == Some(Str(ts))
    ensures Lookup(RecordEntries(ts, outs), KeyOf(Sources[j]))
            == if outs[j].Ok? then Some(outs[j].value) else None
  {
    var head := [("time", Str(ts))] + Collected(outs, |Sources|);
    LookupConcat(head, ErrorsEntry(outs), "time");
    LookupConcat([("time", Str(ts))], Collected(outs, |Sources|), KeyOf(Sources[j]));
    LookupConcat(head, ErrorsEntry(outs), KeyOf(Sources[j]));
    CollectedLookup(outs, |Sources|, j);
  }

  /** The record holds the messages under "errors" exactly when a source failed. */
  lemma RecordErrors(ts: string, outs: seq<Result<Json, FieldError>>)
    requires |outs| == |Sources|
    ensures Lookup(RecordEntries(ts, outs), "errors")
            == if forall i :: 0 <= i < |Sources| ==> outs[i].Ok? then None
               else Some(Arr(Strs(Pushed(outs, |Sources|))))
  {
    var head := [("time", Str(ts))] + Collected(outs, |Sources|);
    LookupConcat(head, ErrorsEntry(outs), "errors");
    LookupConcat([("time", Str(ts))], Collected(outs, |Sources|), "errors");
    CollectedFresh(outs, |Sources|, "errors");
    LookupFindsKey(Collected(outs, |Sources|), "errors");
    PushedNone(outs, |Sources|);
  }

  /** No key occurs twice in the record. */
  lemma RecordDistinct(ts: string, outs: seq<Result<Json, FieldError>>)
    requires |outs| == |Sources|
    ensures DistinctKeys(RecordEntries(ts, outs))
  {
    var head := [("time", Str(ts))] + Collected(outs, |Sources|);
    CollectedDistinct(ts, outs, |Sources|);
    if ErrorsEntry(outs) != [] {
      CollectedFresh(outs, |Sources|, "errors");
      KeysConcat([("time", Str(ts))], Collected(outs, |Sources|));
      DistinctAppend(head, "errors", Arr(Strs(Pushed(outs, |Sources|))));
    }
  }

  /** The last step of `format_log`: the messages, if there are any, go under the
      key "errors", which no source uses. */
  method AddErrors(data: Json, errors: seq<Json>, outs: seq<Result<Json, FieldError>>, ghost ts: string)
    returns (data': Json)
    requires |outs| == |Sources|
    requires data == Obj([("time", Str(ts))] + Collected(outs, |Sources|))
    requires errors == Strs(Pushed(outs, |Sources|))
    ensures data' == Obj(RecordEntries(ts, outs))
  {
    data' := data;
    if |errors| > 0 {
      CollectedFresh(outs, |Sources|, "errors");
      KeysConcat([("time", Str(ts))], Collected(outs, |Sources|));
      AppendNewKey(data.entries, "errors", Arr(errors));
      data' := Set(data, "errors", Arr(errors));
    }
  }

  /** The four `match`es of `format_log`, over what the sources contributed. */
  method Assemble(ts: string, outs: seq<Result<Json, FieldError>>) returns (data: Json)
    requires |outs| == |Sources|
    ensures data == Obj(RecordEntries(ts, outs))
  {
    data := Obj([]);
    var errors: seq<Json> := [];
    AppendNewKey([], "time", Str(ts));
    data := Set(data, "time", Str(ts));
    data, errors := Record(data, errors, outs, 0, ts);
    data, errors := Record(data, errors, outs, 1, ts);
    data, errors := Record(data, errors, outs, 2, ts);
    data, errors := Record(data, errors, outs, 3, ts);
    data := AddErrors(data, errors, outs, ts);
  }

  /** `format_log` up to the final `json::stringify`. */
  method FormatLog(info: ResourceInfo) returns (data: Json)
    ensures data == Obj(LogEntries(info))
  {
    data := Assemble(info.timestamp, Outcomes(info));
  }
}
