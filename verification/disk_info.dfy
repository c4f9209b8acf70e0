/** One line of `/proc/diskstats` as read by src/cephylas/disk_info.rs: `DiskInfo::from_str`
    and the field-wise difference of two readings. The fields follow the order of the
    Linux kernel's Documentation/admin-guide/iostats.rst. */
module Disk {
  import opened Wrappers
  import opened Text
  import opened ProcFields

  /** `SECTOR_SIZE`, in bytes. */
  const SectorSize: int := 512

  datatype DiskInfo = DiskInfo(
    readsCompleted: int, readsMerged: int, sectorsRead: int, millisecondsSpentReading: int,
    writesCompleted: int, writesMerged: int, sectorsWritten: int, millisecondsSpentWriting: int,
    iosInProgress: int, millisecondsSpentIos: int, weightedMillisecondsSpentIos: int,
    discardsCompleted: int, discardsMerged: int, sectorsDiscarted: int,
    flushRequestsCompleted: int, millisecondsSpentFlushing: int)

  /** The entry names, in the order `from_str` reads them. */
  const FieldNames: seq<string> := [
    "reads_completed", "reads_merged", "sectors_read", "milliseconds_spent_reading",
    "writes_completed", "writes_merged", "sectors_written", "milliseconds_spent_writing",
    "ios_in_progress", "milliseconds_spent_ios", "weighted_milliseconds_spent_ios",
    "discards_completed", "discards_merged", "sectors_discarted",
    "flush_requests_completed", "milliseconds_spent_flushing"]

  /** The fields of a reading, in declaration order. */
  function Fields(d: DiskInfo): (v: seq<int>)
    ensures |v| == |FieldNames|
  {
    [d.readsCompleted, d.readsMerged, d.sectorsRead, d.millisecondsSpentReading,
     d.writesCompleted, d.writesMerged, d.sectorsWritten, d.millisecondsSpentWriting,
     d.iosInProgress, d.millisecondsSpentIos, d.weightedMillisecondsSpentIos,
     d.discardsCompleted, d.discardsMerged, d.sectorsDiscarted,
     d.flushRequestsCompleted, d.millisecondsSpentFlushing]
  }

  /** The reading whose fields are `v`, in declaration order. */
  function OfFields(v: seq<int>): (d: DiskInfo)
    requires |v| == |FieldNames|
    ensures Fields(d) == v
  {
    DiskInfo(v[0], v[1], v[2], v[3], v[4], v[5], v[6], v[7],
             v[8], v[9], v[10], v[11], v[12], v[13], v[14], v[15])
  }

  /** `DiskInfo - DiskInfo`: unclamped and field by field over all sixteen fields, so
      adding the older reading back gives the newer one. */
  function Sub(a: DiskInfo, b: DiskInfo): (d: DiskInfo)
    ensures forall i :: 0 <= i < |FieldNames| ==> Fields(d)[i] + Fields(b)[i] == Fields(a)[i]
  {
    DiskInfo(
      a.readsCompleted - b.readsCompleted, a.readsMerged - b.readsMerged,
      a.sectorsRead - b.sectorsRead, a.millisecondsSpentReading - b.millisecondsSpentReading,
      a.writesCompleted - b.writesCompleted, a.writesMerged - b.writesMerged,
      a.sectorsWritten - b.sectorsWritten, a.millisecondsSpentWriting - b.millisecondsSpentWriting,
      a.iosInProgress - b.iosInProgress, a.millisecondsSpentIos - b.millisecondsSpentIos,
      a.weightedMillisecondsSpentIos - b.weightedMillisecondsSpentIos,
      a.discardsCompleted - b.discardsCompleted, a.discardsMerged - b.discardsMerged,
      a.sectorsDiscarted - b.sectorsDiscarted,
      a.flushRequestsCompleted - b.flushRequestsCompleted,
      a.millisecondsSpentFlushing - b.millisecondsSpentFlushing)
  }

  /** What `from_str` returns for a line: the major number, minor number and device
      name are skipped and the next sixteen words are the fields. */
  function ParseDiskInfo(s: string): Result<DiskInfo, FieldError> {
    var ws := Words(s);
    var skip := if |ws| < 3 then |ws| else 3;
    match ReadFields(ws[skip..], FieldNames)
    case Err(e) => Err(e)
    case Ok(v) => Ok(OfFields(v))
  }

  /** `DiskInfo::from_str`, with the token iterator as a cursor. */
  method DiskInfoFromStr(s: string) returns (r: Result<DiskInfo, FieldError>)
    ensures r == ParseDiskInfo(s)
  {
    var tokens := new Cursor(Words(s));
    var _ := tokens.Nth(2);
    var v := ParseFields(tokens, FieldNames);
    if v.Err? {
      return Err(v.error);
    }
    return Ok(OfFields(v.value));
  }

  /** A line is read when it has at least nineteen words and words 3 to 18 are numbers;
      field `i` is word `3 + i`. */
  lemma ParseDiskInfoFields(s: string)
    ensures var ws := Words(s);
      ParseDiskInfo(s).Ok? <==> |ws| >= 19 && forall i :: 3 <= i < 19 ==> ParseI64(ws[i]).Ok?
    ensures ParseDiskInfo(s).Ok? ==>
      forall i :: 0 <= i < 16 ==> ParseI64(Words(s)[3 + i]) == Ok(Fields(ParseDiskInfo(s).value)[i])
  {
    var ws := Words(s);
    if |ws| < 3 {
      assert ReadFields(ws[|ws|..], FieldNames) == Err(EntryNotFound(FieldNames[0]));
    } else {
      ReadFieldsAt(ws, 3, FieldNames);
    }
  }

  /** With fewer than four words there is no first field. */
  lemma ParseDiskInfoShort(s: string)
    requires |Words(s)| < 4
    ensures ParseDiskInfo(s) == Err(EntryNotFound("reads_completed"))
  {
    var ws := Words(s);
    var skip := if |ws| < 3 then |ws| else 3;
    assert ws[skip..] == [];
  }

  /** The first field that is missing or malformed names the error. */
  lemma ParseDiskInfoFailure(s: string, i: nat)
    requires |Words(s)| >= 3 && i < 16 && !FieldOk(Words(s)[3..], i)
    requires forall j :: 0 <= j < i ==> FieldOk(Words(s)[3..], j)
    ensures ParseDiskInfo(s) == Err(
      if 3 + i >= |Words(s)| then EntryNotFound(FieldNames[i])
      else InvalidEntry(FieldNames[i], ParseI64(Words(s)[3 + i]).error))
  {
    ReadFieldsFirstFailure(Words(s)[3..], FieldNames, i);
    assert 3 + i < |Words(s)| ==> Words(s)[3..][i] == Words(s)[3 + i];
  }

  /** Words after the sixteenth field do not matter. */
  lemma ParseDiskInfoIgnoresExtra(s: string, t: string)
    requires |Words(s)| >= 19 && |Words(t)| >= 19 && Words(s)[..19] == Words(t)[..19]
    ensures ParseDiskInfo(s) == ParseDiskInfo(t)
  {
    var ws, wt := Words(s), Words(t);
    assert ws[3..] == ws[3..19] + ws[19..];
    assert wt[3..] == wt[3..19] + wt[19..];
    assert ws[3..19] == wt[3..19];
    ReadFieldsIgnoresExtra(ws[3..19], ws[19..], FieldNames);
    ReadFieldsIgnoresExtra(wt[3..19], wt[19..], FieldNames);
  }
}
