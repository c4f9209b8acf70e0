/** The `/proc/stat` cpu line of src/cephylas/cpu_info.rs: `CpuInfo::from_str`, the
    field-wise difference of two readings and the usage percentage. */
module Cpu {
  import opened Wrappers
  import opened Text
  import opened ProcFields

  /** Jiffies per state; the last six appeared in later kernels and may be absent. */
  datatype CpuInfo = CpuInfo(
    user: int, nice: int, system: int, idle: int,
    iowait: Option<int>, irq: Option<int>, softirq: Option<int>,
    steal: Option<int>, guest: Option<int>, guestNice: Option<int>)

  /** The mandatory fields in the order `from_str` reads them: the second number goes
      to `system` and the third to `nice`. */
  const MandatoryNames: seq<string> := ["user", "system", "nice", "idle"]
  const OptionalNames: seq<string> := ["iowait", "irq", "softirq", "steal", "guest", "guest_nice"]

  // ---------------------------------------------------------------------------
  // difference and usage

  /** `sub_optional`. */
  function SubOptional(a: Option<int>, b: Option<int>): (r: Option<int>)
    ensures r.Some? <==> a.Some? && b.Some?
    ensures r.Some? ==> r.value + b.value == a.value
  {
    match (a, b)
    case (Some(x), Some(y)) => Some(x - y)
    case _ => None
  }

  /** `d` is the difference `a - b` of one optional counter. */
  predicate OptionalDifference(d: Option<int>, a: Option<int>, b: Option<int>) {
    (d.Some? <==> a.Some? && b.Some?) && (d.Some? ==> d.value + b.value == a.value)
  }

  /** `CpuInfo - CpuInfo`: adding the older reading back to the difference gives the
      newer one, field by field; an optional counter absent from either reading is
      absent. */
  function Sub(a: CpuInfo, b: CpuInfo): (d: CpuInfo)
    ensures d.user + b.user == a.user && d.nice + b.nice == a.nice
    ensures d.system + b.system == a.system && d.idle + b.idle == a.idle
    ensures OptionalDifference(d.iowait, a.iowait, b.iowait)
    ensures OptionalDifference(d.irq, a.irq, b.irq)
    ensures OptionalDifference(d.softirq, a.softirq, b.softirq)
    ensures OptionalDifference(d.steal, a.steal, b.steal)
    ensures OptionalDifference(d.guest, a.guest, b.guest)
    ensures OptionalDifference(d.guestNice, a.guestNice, b.guestNice)
  {
    CpuInfo(
      a.user - b.user, a.nice - b.nice, a.system - b.system, a.idle - b.idle,
      SubOptional(a.iowait, b.iowait), SubOptional(a.irq, b.irq),
      SubOptional(a.softirq, b.softirq), SubOptional(a.steal, b.steal),
      SubOptional(a.guest, b.guest), SubOptional(a.guestNice, b.guestNice))
  }

  /** The sum in `calc_cpu_usage`, absent counters counting 0. */
  function Total(c: CpuInfo): int {
    c.user + c.nice + c.system + c.idle
    + c.iowait.GetOr(0) + c.irq.GetOr(0) + c.softirq.GetOr(0)
    + c.steal.GetOr(0) + c.guest.GetOr(0) + c.guestNice.GetOr(0)
  }

  /** `calc_cpu_usage`: user time in percent of the total, and 0 for a zero total. */
  function CalcCpuUsage(c: CpuInfo): (r: real)
    ensures Total(c) == 0 ==> r == 0.0
    ensures Total(c) != 0 ==> r * (Total(c) as real) == (c.user * 100) as real
  {
    if Total(c) == 0 then 0.0 else (c.user * 100) as real / (Total(c) as real)
  }

  // ---------------------------------------------------------------------------
  // from_str

  function CpuInfoOf(mandatory: seq<int>, optional: seq<Option<int>>): CpuInfo
    requires |mandatory| == 4 && |optional| == 6
  {
    CpuInfo(
      user := mandatory[0], system := mandatory[1], nice := mandatory[2], idle := mandatory[3],
      iowait := optional[0], irq := optional[1], softirq := optional[2],
      steal := optional[3], guest := optional[4], guestNice := optional[5])
  }

  /** What `from_str` returns for a line. */
  function ParseCpuInfo(s: string): Result<CpuInfo, FieldError> {
    var ws := Words(s);
    if |ws| == 0 || ws[0] != "cpu" then Err(EntryNotFound("cpu"))
    else
      match ReadFields(ws[1..], MandatoryNames)
      case Err(e) => Err(e)
      case Ok(m) =>
        match ReadOptionals(ws[5..], OptionalNames)
        case Err(e) => Err(e)
        case Ok(o) => Ok(CpuInfoOf(m, o))
  }

  /** `CpuInfo::from_str`, with the token iterator as a cursor. */
  method CpuInfoFromStr(s: string) returns (r: Result<CpuInfo, FieldError>)
    ensures r == ParseCpuInfo(s)
  {
    var tokens := new Cursor(Words(s));
    var cpu := tokens.Next();
    if cpu.None? || cpu.value != "cpu" {
      return Err(EntryNotFound("cpu"));
    }
    var mandatory := ParseFields(tokens, MandatoryNames);
    if mandatory.Err? {
      return Err(mandatory.error);
    }
    var optional := ParseOptionalFields(tokens, OptionalNames);
    if optional.Err? {
      return Err(optional.error);
    }
    return Ok(CpuInfoOf(mandatory.value, optional.value));
  }

  /** A line is read when it starts with the word "cpu" followed by at least four
      numbers, and every further word up to the tenth number is a number. */
  lemma ParseCpuInfoOk(s: string)
    ensures var ws := Words(s);
      ParseCpuInfo(s).Ok? <==>
        |ws| >= 5 && ws[0] == "cpu" && forall i :: 1 <= i < |ws| && i <= 10 ==> ParseI64(ws[i]).Ok?
  {
    var ws := Words(s);
    if |ws| > 0 && ws[0] == "cpu" {
      ReadFieldsAt(ws, 1, MandatoryNames);
      if ReadFields(ws[1..], MandatoryNames).Ok? {
        ReadOptionalsAt(ws, 5, OptionalNames);
      }
    }
  }

  /** The numbers of a line that is read go to user, system, nice, idle, then iowait
      .. guest_nice, missing trailing ones being absent and words after the tenth
      number being ignored. */
  lemma ParseCpuInfoFields(s: string)
    requires ParseCpuInfo(s).Ok?
    ensures var ws := Words(s); var c := ParseCpuInfo(s).value;
      && ParseI64(ws[1]) == Ok(c.user) && ParseI64(ws[2]) == Ok(c.system)
      && ParseI64(ws[3]) == Ok(c.nice) && ParseI64(ws[4]) == Ok(c.idle)
      && OptionalAt(ws, 5, c.iowait) && OptionalAt(ws, 6, c.irq) && OptionalAt(ws, 7, c.softirq)
      && OptionalAt(ws, 8, c.steal) && OptionalAt(ws, 9, c.guest) && OptionalAt(ws, 10, c.guestNice)
  {
    var ws := Words(s);
    var m := ReadFields(ws[1..], MandatoryNames).value;
    ReadFieldsAt(ws, 1, MandatoryNames);
    var o := ReadOptionals(ws[5..], OptionalNames).value;
    ReadOptionalsAt(ws, 5, OptionalNames);
    assert ParseCpuInfo(s).value == CpuInfoOf(m, o);
  }

  /** The first mandatory number that is missing or malformed names the error. */
  lemma CpuMandatoryFailure(s: string, i: nat)
    requires var ws := Words(s); |ws| > 0 && ws[0] == "cpu"
    requires i < 4 && !FieldOk(Words(s)[1..], i)
    requires forall j :: 0 <= j < i ==> FieldOk(Words(s)[1..], j)
    ensures ParseCpuInfo(s) == Err(
      if i + 1 >= |Words(s)| then EntryNotFound(MandatoryNames[i])
      else InvalidEntry(MandatoryNames[i], ParseI64(Words(s)[i + 1]).error))
  {
    ReadFieldsFirstFailure(Words(s)[1..], MandatoryNames, i);
  }

  /** After the four mandatory numbers, the first optional word that is not a number
      names the error. */
  lemma CpuOptionalFailure(s: string, k: nat)
    requires var ws := Words(s); |ws| >= 5 && ws[0] == "cpu"
    requires forall j :: 1 <= j <= 4 ==> ParseI64(Words(s)[j]).Ok?
    requires k < 6 && 5 + k < |Words(s)| && ParseI64(Words(s)[5 + k]).Err?
    requires forall j :: 5 <= j < 5 + k ==> ParseI64(Words(s)[j]).Ok?
    ensures ParseCpuInfo(s) == Err(InvalidEntry(OptionalNames[k], ParseI64(Words(s)[5 + k]).error))
  {
    var ws := Words(s);
    ReadFieldsOk(ws[1..], MandatoryNames);
    assert forall j :: 0 <= j < 4 ==> ws[1..][j] == ws[j + 1];
    assert forall j :: 0 <= j <= k ==> ws[5..][j] == ws[5 + j];
    assert forall j :: 0 <= j < k ==> ParseI64(ws[5..][j]).Ok?;
    ReadOptionalsFirstFailure(ws[5..], OptionalNames, k);
  }
}
