/** The chart datasets of next/src/lib/datasets.ts: the containers of a log sorted
    by name, each turned into one series (`prepareDatasets`) or into two styled
    series, read/write or recv/send (`prepareDatasetsIOandNet`), every series
    downsampled to at most 512 points.

    A log is the list of `Object.entries(logs)`: a container name and its records,
    or `None` for a `null` entry. Times are milliseconds; `null` coordinates are
    `None`. */
module Datasets {
  import opened Wrappers
  import Downsample

  const DownsampleCount: int := 512

  // ---------------------------------------------------------------------------
  // sorting by container name

  /** The order `localeCompare` puts names in, taken as the lexicographic order of
      their characters. */
  predicate LabelLe(a: string, b: string)
    decreases |a|
  {
    |a| == 0 || (|b| > 0 && (a[0] < b[0] || (a[0] == b[0] && LabelLe(a[1..], b[1..]))))
  }

  lemma {:induction false} LabelLeTotal(a: string, b: string)
    ensures LabelLe(a, b) || LabelLe(b, a)
    decreases |a|
  {
    if |a| > 0 && |b| > 0 && a[0] == b[0] {
      LabelLeTotal(a[1..], b[1..]);
    }
  }

  lemma {:induction false} LabelLeTrans(a: string, b: string, c: string)
    requires LabelLe(a, b) && LabelLe(b, c)
    ensures LabelLe(a, c)
    decreases |a|
  {
    if |a| > 0 && a[0] == b[0] && b[0] == c[0] {
      LabelLeTrans(a[1..], b[1..], c[1..]);
    }
  }

  predicate SortedByLabel<V>(s: seq<(string, V)>) {
    forall i, j :: 0 <= i < j < |s| ==> LabelLe(s[i].0, s[j].0)
  }

  /** Inserting an entry in front of the first entry whose name is not smaller. */
  function InsertByLabel<V(==)>(e: (string, V), s: seq<(string, V)>): (r: seq<(string, V)>)
    ensures multiset(r) == multiset(s) + multiset{e}
    ensures |r| == |s| + 1
  {
    if |s| == 0 then [e]
    else if LabelLe(e.0, s[0].0) then [e] + s
    else
      assert s == [s[0]] + s[1..];
      [s[0]] + InsertByLabel(e, s[1..])
  }

  /** `.sort(([a], [b]) => a.localeCompare(b))`: a stable sort by name. */
  function SortByLabel<V(==)>(s: seq<(string, V)>): (r: seq<(string, V)>)
    ensures multiset(r) == multiset(s)
    ensures |r| == |s|
  {
    if |s| == 0 then []
    else
      assert s == [s[0]] + s[1..];
      InsertByLabel(s[0], SortByLabel(s[1..]))
  }

  /** Insertion keeps a sorted list sorted. */
  lemma {:induction false} InsertSorted<V>(e: (string, V), s: seq<(string, V)>)
    requires SortedByLabel(s)
    ensures SortedByLabel(InsertByLabel(e, s))
  {
    var r := InsertByLabel(e, s);
    if |s| == 0 {
    } else if LabelLe(e.0, s[0].0) {
      forall j | 0 < j < |r|
        ensures LabelLe(e.0, r[j].0)
      {
        if j > 1 {
          LabelLeTrans(e.0, s[0].0, s[j - 1].0);
        }
      }
    } else {
      LabelLeTotal(e.0, s[0].0);
      var tail := InsertByLabel(e, s[1..]);
      InsertSorted(e, s[1..]);
      forall j | 0 <= j < |tail|
        ensures LabelLe(s[0].0, tail[j].0)
      {
        assert tail[j] in multiset(s[1..]) + multiset{e};
        if tail[j] != e {
          assert tail[j] in s[1..];
        }
      }
    }
  }

  /** Sorting by name orders the entries by name and keeps every entry. */
  lemma {:induction false} SortByLabelSorts<V>(s: seq<(string, V)>)
    ensures SortedByLabel(SortByLabel(s))
    ensures multiset(SortByLabel(s)) == multiset(s)
  {
    if |s| > 0 {
      SortByLabelSorts(s[1..]);
      InsertSorted(s[0], SortByLabel(s[1..]));
    }
  }

  // ---------------------------------------------------------------------------
  // prepareDatasets

  /** A chart point `{x, y}`. */
  datatype Point = Point(x: Option<real>, y: Option<real>)

  datatype Dataset = Dataset(legend: string, data: seq<Point>)

  function Map<D, R>(s: seq<D>, f: D -> R): (r: seq<R>)
    ensures |r| == |s|
    ensures forall i :: 0 <= i < |s| ==> r[i] == f(s[i])
  {
    seq(|s|, i requires 0 <= i < |s| => f(s[i]))
  }

  /** One container's series: none for a `null` entry, otherwise its records as
      points, downsampled to 512. */
  function ChartData<D>(data: Option<seq<D>>, xy: D -> Point): seq<Point> {
    match data
    case None => []
    case Some(records) =>
      Downsample.Lttb(Map(records, xy), DownsampleCount, (p: Point) => p.x, (p: Point) => p.y)
  }

  function MakeDataset<D>(entry: (string, Option<seq<D>>), xy: D -> Point): Dataset {
    Dataset(entry.0, ChartData(entry.1, xy))
  }

  /** `prepareDatasets`. */
  function PrepareDatasets<D(==)>(logs: seq<(string, Option<seq<D>>)>, xy: D -> Point): (r: seq<Dataset>)
    ensures |r| == |logs|
  {
    Map(SortByLabel(logs), DatasetFor(xy))
  }

  /** The callback of `prepareDatasets`' `map`. */
  function DatasetFor<D>(xy: D -> Point): ((string, Option<seq<D>>)) -> Dataset {
    (entry: (string, Option<seq<D>>)) => MakeDataset(entry, xy)
  }

  /** A container's series is empty for a `null` entry; a series of at most 512
      records is kept whole; a longer one is cut to 512 points that start and end
      with its first and last record's points. */
  lemma ChartDataShape<D>(data: Option<seq<D>>, xy: D -> Point)
    ensures data.None? ==> ChartData(data, xy) == []
    ensures data.Some? && |data.value| <= DownsampleCount ==> ChartData(data, xy) == Map(data.value, xy)
    ensures data.Some? && |data.value| > DownsampleCount ==>
      var r := ChartData(data, xy);
      && |r| == DownsampleCount
      && r[0] == xy(data.value[0])
      && r[DownsampleCount - 1] == xy(data.value[|data.value| - 1])
      && forall k :: 0 <= k < |r| ==> r[k] in Map(data.value, xy)
  {
    if data.Some? {
      Downsample.LttbShape(Map(data.value, xy), DownsampleCount, (p: Point) => p.x, (p: Point) => p.y);
    }
  }

  /** One dataset per container, in name order, each built from its own entry. */
  lemma PrepareDatasetsShape<D>(logs: seq<(string, Option<seq<D>>)>, xy: D -> Point)
    ensures var r := PrepareDatasets(logs, xy);
      && |r| == |logs|
      && (forall i, j :: 0 <= i < j < |r| ==> LabelLe(r[i].legend, r[j].legend))
      && (forall k :: 0 <= k < |logs| ==> MakeDataset(logs[k], xy) in r)
      && (forall i :: 0 <= i < |r| ==> exists k :: 0 <= k < |logs| && r[i] == MakeDataset(logs[k], xy))
  {
    var sorted := SortByLabel(logs);
    var r := PrepareDatasets(logs, xy);
    SortByLabelSorts(logs);
    MapPermutation(sorted, logs, DatasetFor(xy));
    forall i | 0 <= i < |r|
      ensures r[i].legend == sorted[i].0
    {
      MakeDatasetLegend(sorted[i], xy);
    }
  }

  lemma MakeDatasetLegend<D>(entry: (string, Option<seq<D>>), xy: D -> Point)
    ensures MakeDataset(entry, xy).legend == entry.0
  {
  }

  /** Mapping over a reordering of a list gives a reordering of the images. */
  lemma MapPermutation<E, R>(s: seq<E>, t: seq<E>, f: E -> R)
    requires multiset(s) == multiset(t)
    ensures forall k :: 0 <= k < |t| ==> f(t[k]) in Map(s, f)
    ensures forall i :: 0 <= i < |s| ==> exists k :: 0 <= k < |t| && Map(s, f)[i] == f(t[k])
  {
    var m := Map(s, f);
    forall k | 0 <= k < |t|
      ensures f(t[k]) in m
    {
      assert t[k] in multiset(s);
      var i :| 0 <= i < |s| && s[i] == t[k];
      assert m[i] == f(t[k]);
    }
    forall i | 0 <= i < |s|
      ensures exists k :: 0 <= k < |t| && m[i] == f(t[k])
    {
      assert s[i] in multiset(t);
      var k :| 0 <= k < |t| && t[k] == s[i];
      assert m[i] == f(t[k]);
    }
  }

  // ---------------------------------------------------------------------------
  // prepareDatasetsIOandNet

  /** The fields of a log record the io and net charts read. */
  datatype LogData = LogData(
    time: Option<real>,
    readkBps: Option<real>, writekBps: Option<real>,
    recvkBps: Option<real>, sendkBps: Option<real>)

  datatype IoOrNet = Io | Net

  /** `DataLabelPresetsIOandNet[ioOrNet].appendix`. */
  function Appendix(kind: IoOrNet): (r: seq<string>)
    ensures |r| == 2
  {
    match kind
    case Io => ["read", "write"]
    case Net => ["recv", "send"]
  }

  /** `DataLabelPresetsIOandNet[ioOrNet].xy[type]`. */
  function SeriesPoint(kind: IoOrNet, t: string, d: LogData): Point {
    match kind
    case Io => Point(d.time, if t == "read" then d.readkBps else d.writekBps)
    case Net => Point(d.time, if t == "recv" then d.recvkBps else d.sendkBps)
  }

  /** Chart.js's default border colours. */
  const BorderColors: seq<string> := [
    "rgb( 54, 162, 235)", "rgb(255,  99, 132)", "rgb(255, 159,  64)", "rgb(255, 205,  86)",
    "rgb( 75, 192, 192)", "rgb(153, 102, 255)", "rgb(201, 203, 207)"]

  /** `s.replace(pattern, replacement)` with a string pattern: the first occurrence
      only. */
  function ReplaceFirst(s: string, pattern: string, replacement: string): string
    requires |pattern| > 0
  {
    if |s| < |pattern| then s
    else if s[..|pattern|] == pattern then replacement + s[|pattern|..]
    else [s[0]] + ReplaceFirst(s[1..], pattern, replacement)
  }

  /** `.replace('rgb(', 'rgba(').replace(')', ',0.5)')`. */
  function Translucent(color: string): string {
    ReplaceFirst(ReplaceFirst(color, "rgb(", "rgba("), ")", ",0.5)")
  }

  datatype StyledDataset = StyledDataset(
    legend: string, data: seq<Point>, borderColor: string, backgroundColor: string, borderDash: seq<int>)

  /** The dataset of series `t` of the `ilabel`-th container in name order. */
  function Styled(kind: IoOrNet, name: string, ilabel: nat, records: seq<LogData>, t: string): StyledDataset {
    var points := Map(records, (d: LogData) => SeriesPoint(kind, t, d));
    StyledDataset(
      name + " " + t,
      Downsample.Lttb(points, DownsampleCount, (p: Point) => p.x, (p: Point) => p.y),
      BorderColors[ilabel % |BorderColors|],
      Translucent(BorderColors[ilabel % |BorderColors|]),
      if t == "send" || t == "write" then [5, 5] else [1, 0])
  }

  /** The datasets of one container, one per appendix type; `None` for a `null`
      entry, whose `data.map` throws. */
  function StylePair(kind: IoOrNet, entry: (string, Option<seq<LogData>>), ilabel: nat): (r: Option<seq<StyledDataset>>)
    ensures r.Some? <==> entry.1.Some?
    ensures r.Some? ==> |r.value| == 2
  {
    match entry.1
    case None => None
    case Some(records) => Some(Map(Appendix(kind), (t: string) => Styled(kind, entry.0, ilabel, records, t)))
  }

  /** `flatMap` with the element's index over the first `n` elements; a `None` from
      `f` is an exception that ends the whole call. */
  function FlatMapIndexed<E, R>(s: seq<E>, f: (E, nat) -> Option<seq<R>>, n: nat): Option<seq<R>>
    requires n <= |s|
  {
    if n == 0 then Some([])
    else
      match FlatMapIndexed(s, f, n - 1)
      case None => None
      case Some(front) =>
        match f(s[n - 1], n - 1)
        case None => None
        case Some(part) => Some(front + part)
  }

  /** It succeeds exactly when `f` succeeds on every element. */
  lemma {:induction false} FlatMapIndexedSome<E, R>(s: seq<E>, f: (E, nat) -> Option<seq<R>>, n: nat)
    requires n <= |s|
    ensures FlatMapIndexed(s, f, n).Some? <==> forall i :: 0 <= i < n ==> f(s[i], i).Some?
  {
    if n > 0 {
      FlatMapIndexedSome(s, f, n - 1);
    }
  }

  /** When every element gives two results, they come two by two, in order. */
  lemma {:induction false} FlatMapIndexedPairs<E, R>(s: seq<E>, f: (E, nat) -> Option<seq<R>>, n: nat)
    requires n <= |s|
    requires forall i :: 0 <= i < n ==> f(s[i], i).Some? && |f(s[i], i).value| == 2
    ensures FlatMapIndexed(s, f, n).Some?
    ensures var r := FlatMapIndexed(s, f, n).value;
      && |r| == 2 * n
      && forall i :: 0 <= i < n ==> r[2 * i] == f(s[i], i).value[0] && r[2 * i + 1] == f(s[i], i).value[1]
  {
    if n > 0 {
      FlatMapIndexedPairs(s, f, n - 1);
      var front := FlatMapIndexed(s, f, n - 1).value;
      var r := front + f(s[n - 1], n - 1).value;
      assert FlatMapIndexed(s, f, n) == Some(r);
      forall i | 0 <= i < n - 1
        ensures r[2 * i] == front[2 * i] && r[2 * i + 1] == front[2 * i + 1]
      {
      }
    }
  }

  /** The callback of `prepareDatasetsIOandNet`'s `flatMap`. */
  function StyleFor(kind: IoOrNet): ((string, Option<seq<LogData>>), nat) -> Option<seq<StyledDataset>> {
    (entry: (string, Option<seq<LogData>>), ilabel: nat) => StylePair(kind, entry, ilabel)
  }

  /** `prepareDatasetsIOandNet`. */
  function PrepareDatasetsIOandNet(logs: seq<(string, Option<seq<LogData>>)>, kind: IoOrNet): Option<seq<StyledDataset>> {
    var sorted := SortByLabel(logs);
    FlatMapIndexed(sorted, StyleFor(kind), |sorted|)
  }

  /** The fields of one styled dataset. */
  lemma StyledFields(kind: IoOrNet, name: string, ilabel: nat, records: seq<LogData>, t: string)
    ensures var d := Styled(kind, name, ilabel, records, t);
      && d.legend == name + " " + t
      && d.borderColor == BorderColors[ilabel % 7]
      && d.backgroundColor == Translucent(d.borderColor)
      && d.borderDash == (if t == "send" || t == "write" then [5, 5] else [1, 0])
  {
  }

  /** Two datasets per container in name order, labelled `"<name> <type>"` with the
      types in [read, write] or [recv, send] order, both in the colour of the
      container's position modulo 7, dashed [5, 5] exactly for write and send; a
      `null` container makes the whole call fail. */
  lemma PrepareDatasetsIOandNetShape(logs: seq<(string, Option<seq<LogData>>)>, kind: IoOrNet)
    ensures var r := PrepareDatasetsIOandNet(logs, kind);
      && (r.Some? <==> forall k :: 0 <= k < |logs| ==> logs[k].1.Some?)
      && (r.Some? ==>
            var sorted := SortByLabel(logs);
            && |r.value| == 2 * |logs|
            && forall i :: 0 <= i < |logs| ==>
                 StylePairFields(kind, sorted[i], i, r.value[2 * i], r.value[2 * i + 1]))
  {
    var sorted := SortByLabel(logs);
    var f := StyleFor(kind);
    SortByLabelSorts(logs);
    SomeIffNoNull(logs, sorted);
    FlatMapIndexedSome(sorted, f, |sorted|);
    assert forall i :: 0 <= i < |sorted| ==> (f(sorted[i], i).Some? <==> sorted[i].1.Some?);
    var r := PrepareDatasetsIOandNet(logs, kind);
    if r.Some? {
      FlatMapIndexedPairs(sorted, f, |sorted|);
      forall i | 0 <= i < |logs|
        ensures StylePairFields(kind, sorted[i], i, r.value[2 * i], r.value[2 * i + 1])
      {
        StylePairShape(kind, sorted[i], i);
      }
    }
  }

  /** The two datasets of the `ilabel`-th container `entry`. */
  predicate StylePairFields(kind: IoOrNet, entry: (string, Option<seq<LogData>>), ilabel: nat, first: StyledDataset, second: StyledDataset) {
    var app := Appendix(kind);
    && first.legend == entry.0 + " " + app[0]
    && second.legend == entry.0 + " " + app[1]
    && first.borderColor == second.borderColor == BorderColors[ilabel % 7]
    && first.backgroundColor == second.backgroundColor == Translucent(BorderColors[ilabel % 7])
    && first.borderDash == [1, 0]
    && second.borderDash == [5, 5]
  }

  lemma StylePairShape(kind: IoOrNet, entry: (string, Option<seq<LogData>>), ilabel: nat)
    requires entry.1.Some?
    ensures var pair := StylePair(kind, entry, ilabel).value;
      StylePairFields(kind, entry, ilabel, pair[0], pair[1])
  {
    var app := Appendix(kind);
    StyledFields(kind, entry.0, ilabel, entry.1.value, app[0]);
    StyledFields(kind, entry.0, ilabel, entry.1.value, app[1]);
  }

  /** Sorting keeps the `null` entries. */
  lemma SomeIffNoNull(logs: seq<(string, Option<seq<LogData>>)>, sorted: seq<(string, Option<seq<LogData>>)>)
    requires multiset(sorted) == multiset(logs)
    ensures (forall i :: 0 <= i < |sorted| ==> sorted[i].1.Some?) <==> (forall k :: 0 <= k < |logs| ==> logs[k].1.Some?)
  {
    if forall i :: 0 <= i < |sorted| ==> sorted[i].1.Some? {
      forall k | 0 <= k < |logs|
        ensures logs[k].1.Some?
      {
        assert logs[k] in multiset(sorted);
      }
    }
    if forall k :: 0 <= k < |logs| ==> logs[k].1.Some? {
      forall i | 0 <= i < |sorted|
        ensures sorted[i].1.Some?
      {
        assert sorted[i] in multiset(logs);
      }
    }
  }

  /** A colour `rgb(<inner>)` becomes `rgba(<inner>,0.5)`, as each of Chart.js's
      seven default colours does. */
  lemma TranslucentRgb(inner: string)
    requires ')' !in inner
    ensures Translucent("rgb(" + inner + ")") == "rgba(" + inner + ",0.5)"
  {
    var s := "rgb(" + inner + ")";
    assert s[..4] == "rgb(";
    assert s[4..] == inner + ")";
    assert ReplaceFirst(s, "rgb(", "rgba(") == "rgba(" + (inner + ")");
    ReplaceAfter("rgba(" + inner, ")", ",0.5)");
    assert "rgba(" + (inner + ")") == ("rgba(" + inner) + ")";
    assert ReplaceFirst(")", ")", ",0.5)") == ",0.5)";
  }

  /** The first `)` is found after a prefix without one. */
  lemma {:induction false} ReplaceAfter(prefix: string, rest: string, replacement: string)
    requires ')' !in prefix
    requires |rest| > 0 && rest[0] == ')'
    ensures ReplaceFirst(prefix + rest, ")", replacement) == prefix + ReplaceFirst(rest, ")", replacement)
  {
    if prefix != [] {
      ReplaceAfter(prefix[1..], rest, replacement);
      assert (prefix + rest)[1..] == prefix[1..] + rest;
      assert (prefix + rest)[..1] == [prefix[0]];
    } else {
      assert prefix + rest == rest;
    }
  }
}
