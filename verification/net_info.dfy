/** One device line of `/proc/net/dev` as read by src/cephylas/net_info.rs:
    `NetInfo::from_str` and the field-wise difference of two readings. */
module Net {
  import opened Wrappers
  import opened Text
  import opened ProcFields

  datatype NetRxInfo = NetRxInfo(
    bytes: int, packets: int, errs: int, drop: int,
    fifo: int, frame: int, compressed: int, multicast: int)

  datatype NetTxInfo = NetTxInfo(
    bytes: int, packets: int, errs: int, drop: int,
    fifo: int, colls: int, carrier: int, compressed: int)

  datatype NetInfo = NetInfo(rx: NetRxInfo, tx: NetTxInfo)

  /** The entry names, in the order `from_str` reads them. */
  const FieldNames: seq<string> := [
    "rx_bytes", "rx_packets", "rx_errs", "rx_drop",
    "rx_fifo", "rx_frame", "rx_compressed", "rx_multicast",
    "tx_bytes", "tx_packets", "tx_errs", "tx_drop",
    "tx_fifo", "tx_colls", "tx_carrier", "tx_compressed"]

  function RxFields(rx: NetRxInfo): (v: seq<int>)
    ensures |v| == 8
  {
    [rx.bytes, rx.packets, rx.errs, rx.drop, rx.fifo, rx.frame, rx.compressed, rx.multicast]
  }

  function TxFields(tx: NetTxInfo): (v: seq<int>)
    ensures |v| == 8
  {
    [tx.bytes, tx.packets, tx.errs, tx.drop, tx.fifo, tx.colls, tx.carrier, tx.compressed]
  }

  /** The sixteen counters of a reading, receive side first, in declaration order. */
  function Fields(n: NetInfo): (v: seq<int>)
    ensures |v| == |FieldNames|
  {
    RxFields(n.rx) + TxFields(n.tx)
  }

  /** The reading whose counters are `v`, in declaration order. */
  function OfFields(v: seq<int>): (n: NetInfo)
    requires |v| == |FieldNames|
    ensures Fields(n) == v
  {
    NetInfo(
      NetRxInfo(v[0], v[1], v[2], v[3], v[4], v[5], v[6], v[7]),
      NetTxInfo(v[8], v[9], v[10], v[11], v[12], v[13], v[14], v[15]))
  }

  /** `NetRxInfo - NetRxInfo`: unclamped, field by field. */
  function SubRx(a: NetRxInfo, b: NetRxInfo): (d: NetRxInfo)
    ensures forall i :: 0 <= i < 8 ==> RxFields(d)[i] + RxFields(b)[i] == RxFields(a)[i]
  {
    NetRxInfo(
      a.bytes - b.bytes, a.packets - b.packets, a.errs - b.errs, a.drop - b.drop,
      a.fifo - b.fifo, a.frame - b.frame, a.compressed - b.compressed, a.multicast - b.multicast)
  }

  /** `NetTxInfo - NetTxInfo`: unclamped, field by field. */
  function SubTx(a: NetTxInfo, b: NetTxInfo): (d: NetTxInfo)
    ensures forall i :: 0 <= i < 8 ==> TxFields(d)[i] + TxFields(b)[i] == TxFields(a)[i]
  {
    NetTxInfo(
      a.bytes - b.bytes, a.packets - b.packets, a.errs - b.errs, a.drop - b.drop,
      a.fifo - b.fifo, a.colls - b.colls, a.carrier - b.carrier, a.compressed - b.compressed)
  }

  /** `NetInfo - NetInfo`: adding the older reading back gives the newer one, counter
      by counter over both directions. */
  function Sub(a: NetInfo, b: NetInfo): (d: NetInfo)
    ensures forall i :: 0 <= i < |FieldNames| ==> Fields(d)[i] + Fields(b)[i] == Fields(a)[i]
  {
    NetInfo(SubRx(a.rx, b.rx), SubTx(a.tx, b.tx))
  }

  /** What `from_str` returns for a line: the device name is skipped and the next
      sixteen words are the counters. */
  function ParseNetInfo(s: string): Result<NetInfo, FieldError> {
    var ws := Words(s);
    var skip := if |ws| < 1 then 0 else 1;
    match ReadFields(ws[skip..], FieldNames)
    case Err(e) => Err(e)
    case Ok(v) => Ok(OfFields(v))
  }

  /** `NetInfo::from_str`, with the token iterator as a cursor. */
  method NetInfoFromStr(s: string) returns (r: Result<NetInfo, FieldError>)
    ensures r == ParseNetInfo(s)
  {
    var tokens := new Cursor(Words(s));
    var _ := tokens.Next();
    var v := ParseFields(tokens, FieldNames);
    if v.Err? {
      return Err(v.error);
    }
    return Ok(OfFields(v.value));
  }

  /** A line is read when it has at least seventeen words and words 1 to 16 are
      numbers; counter `i` is word `1 + i`. */
  lemma ParseNetInfoFields(s: string)
    ensures var ws := Words(s);
      ParseNetInfo(s).Ok? <==> |ws| >= 17 && forall i :: 1 <= i < 17 ==> ParseI64(ws[i]).Ok?
    ensures ParseNetInfo(s).Ok? ==>
      forall i :: 0 <= i < 16 ==> ParseI64(Words(s)[1 + i]) == Ok(Fields(ParseNetInfo(s).value)[i])
  {
    var ws := Words(s);
    if |ws| == 0 {
      assert ReadFields(ws, FieldNames) == Err(EntryNotFound(FieldNames[0]));
    } else {
      ReadFieldsAt(ws, 1, FieldNames);
    }
  }

  /** The first counter that is missing or malformed names the error. */
  lemma ParseNetInfoFailure(s: string, i: nat)
    requires |Words(s)| >= 1 && i < 16 && !FieldOk(Words(s)[1..], i)
    requires forall j :: 0 <= j < i ==> FieldOk(Words(s)[1..], j)
    ensures ParseNetInfo(s) == Err(
      if 1 + i >= |Words(s)| then EntryNotFound(FieldNames[i])
      else InvalidEntry(FieldNames[i], ParseI64(Words(s)[1 + i]).error))
  {
    ReadFieldsFirstFailure(Words(s)[1..], FieldNames, i);
    assert 1 + i < |Words(s)| ==> Words(s)[1..][i] == Words(s)[1 + i];
  }

  /** Words after the sixteenth counter do not matter. */
  lemma ParseNetInfoIgnoresExtra(s: string, t: string)
    requires |Words(s)| >= 17 && |Words(t)| >= 17 && Words(s)[..17] == Words(t)[..17]
    ensures ParseNetInfo(s) == ParseNetInfo(t)
  {
    var ws, wt := Words(s), Words(t);
    assert ws[1..] == ws[1..17] + ws[17..];
    assert wt[1..] == wt[1..17] + wt[17..];
    assert ws[1..17] == wt[1..17];
    ReadFieldsIgnoresExtra(ws[1..17], ws[17..], FieldNames);
    ReadFieldsIgnoresExtra(wt[1..17], wt[17..], FieldNames);
  }
}
