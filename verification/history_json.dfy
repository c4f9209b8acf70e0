/** The two history serialisations of core/src/log.rs: `custom_dump`, the compact
    text written for each logged usage document, and `reshape_log_cache`, which
    regroups the history buffer (one document per tick, all containers) into one
    chronological series per container.

    `custom_dump` leaves to `json.dump()` the strings, and prints every number whose
    decimal exponent is not zero with two decimals; both are parameters here (`quote`
    for the string escaping, `decimals` for the numbers `Float` and `NonFinite`; a NaN
    has exponent zero and goes through `to_string`, which prints a token that is not
    JSON). `reshape_log_cache` passes every value through
    `json::parse(&custom_dump(v)).expect("")`; that round trip is the parameter
    `reparse`, and `None` from it is the panic of the `expect`. */
module HistoryJson {
  import opened Wrappers
  import opened JsonValue
  import Text
  import LC = LogCache

  // ---------------------------------------------------------------------------
  // custom_dump

  /** `n.to_string()` for an integral number. */
  function IntToString(n: int): string {
    if n < 0 then "-" + Text.NatToString(-n) else Text.NatToString(n)
  }

  /** `custom_dump`: objects print their keys between double quotes as they are,
      without escaping; arrays and objects separate their members by "," with no
      white space. */
  function CustomDump(j: Json, quote: string -> string, decimals: Json -> string): string
    decreases j
  {
    match j
    case Obj(es) =>
      "{" + Text.Join(seq(|es|, i requires 0 <= i < |es| =>
                        "\"" + es[i].0 + "\":" + CustomDump(es[i].1, quote, decimals)), ",") + "}"
    case Arr(items) =>
      "[" + Text.Join(seq(|items|, i requires 0 <= i < |items| =>
                        CustomDump(items[i], quote, decimals)), ",") + "]"
    case Num(n) => IntToString(n)
    case Float(_) => decimals(j)
    case NonFinite => decimals(j)
    case Null => "null"
    case Bool(b) => if b then "true" else "false"
    case Str(s) => quote(s)
  }

  /** `json.dump()`: object keys go through the string escaping, and non-integral
      numbers through its own formatting `numbers` (the full decimal form, and `null`
      for a NaN). */
  function Dump(j: Json, quote: string -> string, numbers: Json -> string): string
    decreases j
  {
    match j
    case Obj(es) =>
      "{" + Text.Join(seq(|es|, i requires 0 <= i < |es| =>
                        quote(es[i].0) + ":" + Dump(es[i].1, quote, numbers)), ",") + "}"
    case Arr(items) =>
      "[" + Text.Join(seq(|items|, i requires 0 <= i < |items| =>
                        Dump(items[i], quote, numbers)), ",") + "]"
    case Num(n) => IntToString(n)
    case Float(_) => numbers(j)
    case NonFinite => numbers(j)
    case Null => "null"
    case Bool(b) => if b then "true" else "false"
    case Str(s) => quote(s)
  }

  /** Every object key anywhere in `j` satisfies `p`. */
  predicate AllKeys(j: Json, p: string -> bool)
    decreases j
  {
    match j
    case Obj(es) => forall i :: 0 <= i < |es| ==> p(es[i].0) && AllKeys(es[i].1, p)
    case Arr(items) => forall i :: 0 <= i < |items| ==> AllKeys(items[i], p)
    case _ => true
  }

  /** Every non-integral number anywhere in `j` satisfies `p`. */
  predicate AllNonIntegral(j: Json, p: Json -> bool)
    decreases j
  {
    match j
    case Obj(es) => forall i :: 0 <= i < |es| ==> AllNonIntegral(es[i].1, p)
    case Arr(items) => forall i :: 0 <= i < |items| ==> AllNonIntegral(items[i], p)
    case Float(_) => p(j)
    case NonFinite => p(j)
    case _ => true
  }

  /** `custom_dump` and `json.dump()` differ only in key escaping and in the
      formatting of non-integral numbers: wherever no key needs escaping and the two
      number formats agree on the document's non-integral numbers, they print the
      same text. */
  lemma {:induction false} CustomDumpIsDump(j: Json, quote: string -> string, decimals: Json -> string, numbers: Json -> string)
    requires AllKeys(j, k => quote(k) == "\"" + k + "\"")
    requires AllNonIntegral(j, x => decimals(x) == numbers(x))
    ensures CustomDump(j, quote, decimals) == Dump(j, quote, numbers)
    decreases j
  {
    match j
    case Obj(es) =>
      var a := seq(|es|, i requires 0 <= i < |es| =>
                   "\"" + es[i].0 + "\":" + CustomDump(es[i].1, quote, decimals));
      var b := seq(|es|, i requires 0 <= i < |es| =>
                   quote(es[i].0) + ":" + Dump(es[i].1, quote, numbers));
      forall i | 0 <= i < |es|
        ensures a[i] == b[i]
      {
        CustomDumpIsDump(es[i].1, quote, decimals, numbers);
        assert "\"" + es[i].0 + "\":" == quote(es[i].0) + ":";
      }
      assert a == b;
    case Arr(items) =>
      var a := seq(|items|, i requires 0 <= i < |items| => CustomDump(items[i], quote, decimals));
      var b := seq(|items|, i requires 0 <= i < |items| => Dump(items[i], quote, numbers));
      forall i | 0 <= i < |items|
        ensures a[i] == b[i]
      {
        CustomDumpIsDump(items[i], quote, decimals, numbers);
      }
      assert a == b;
    case _ =>
  }

  /** An array of `u64` counters dumps as "[", the decimal numbers separated by ",",
      and "]": splitting the inside on "," and parsing each part gives the counters
      back. */
  lemma CountersRoundTrip(items: seq<Json>, quote: string -> string, decimals: Json -> string)
    requires items != []
    requires forall i :: 0 <= i < |items| ==> items[i].Num? && 0 <= items[i].n <= Text.U64_MAX
    ensures var s := CustomDump(Arr(items), quote, decimals);
      && |s| >= 2 && s[0] == '[' && s[|s| - 1] == ']'
      && |Text.Split(s[1..|s| - 1], ',')| == |items|
      && forall i :: 0 <= i < |items| ==>
           Text.ParseU64(Text.Split(s[1..|s| - 1], ',')[i]) == Ok(items[i].n)
  {
    var parts := seq(|items|, i requires 0 <= i < |items| => CustomDump(items[i], quote, decimals));
    forall i | 0 <= i < |items|
      ensures parts[i] == Text.NatToString(items[i].n) && ',' !in parts[i]
      ensures Text.ParseU64(parts[i]) == Ok(items[i].n)
    {
      Text.ParsePrintedU64(items[i].n);
    }
    var inner := Text.Join(parts, ",");
    var s := CustomDump(Arr(items), quote, decimals);
    assert s == "[" + inner + "]";
    assert s[1..|s| - 1] == inner;
    Text.SplitJoin(parts, ',');
  }

  // ---------------------------------------------------------------------------
  // reshape_log_cache

  /** The container names of a history document, in order. */
  function LineNames(line: Json): seq<string> {
    Keys(Entries(Get(line, "stats")))
  }

  /** `stat_json.insert(k, redump(v))` for the first `n` entries of `kvs`, in order. */
  function InsertAll(es: seq<(string, Json)>, kvs: seq<(string, Json)>, n: nat, redump: Json -> Json): seq<(string, Json)>
    requires n <= |kvs|
  {
    if n == 0 then es else Insert(InsertAll(es, kvs, n - 1, redump), kvs[n - 1].0, redump(kvs[n - 1].1))
  }

  /** The row of container `name` in a history document: its time (`null` when the
      document has none), then each of the container's usage members. */
  function Row(line: Json, name: string, redump: Json -> Json): Json {
    var kvs := Entries(Get(Get(line, "stats"), name));
    Obj(InsertAll([("time", OptStr(AsStr(Get(line, "time"))))], kvs, |kvs|, redump))
  }

  /** `json[name].push(row)`, creating the array on first use. */
  function Push(j: Json, name: string, row: Json): Json {
    Set(j, name, Arr(Members(Get(j, name)) + [row]))
  }

  /** The result after the inner loop has pushed the rows of the first `n` containers
      of `line`. */
  function AddNames(j: Json, line: Json, names: seq<string>, n: nat, redump: Json -> Json): Json
    requires n <= |names|
  {
    if n == 0 then j else Push(AddNames(j, line, names, n - 1, redump), names[n - 1], Row(line, names[n - 1], redump))
  }

  /** The object `reshape_log_cache` has built after the first `n` history documents. */
  function Regroup(lines: seq<Json>, n: nat, redump: Json -> Json): Json
    requires n <= |lines|
  {
    if n == 0 then Obj([])
    else
      var line := lines[n - 1];
      AddNames(Regroup(lines, n - 1, redump), line, LineNames(line), |LineNames(line)|, redump)
  }

  /** The rows of container `name` in the first `n` documents, oldest first: one for
      each document that has the container. */
  function RowsFor(lines: seq<Json>, n: nat, name: string, redump: Json -> Json): seq<Json>
    requires n <= |lines|
  {
    if n == 0 then []
    else if name in LineNames(lines[n - 1]) then RowsFor(lines, n - 1, name, redump) + [Row(lines[n - 1], name, redump)]
    else RowsFor(lines, n - 1, name, redump)
  }

  /** A container's series in the reshaped object: absent while it has no rows. */
  function Series(rows: seq<Json>): Json {
    if |rows| == 0 then Null else Arr(rows)
  }

  /** Pushing onto a series that holds `rows` gives a series of `rows` and the new row. */
  lemma PushSeries(g: Json, rows: seq<Json>, row: Json)
    requires g == Series(rows)
    ensures Arr(Members(g) + [row]) == Series(rows + [row])
  {
    assert |rows + [row]| > 0;
    if rows == [] {
      LC.AppendNothing([row]);
    }
  }

  /** Pushing a row leaves the other containers alone and appends to this one. */
  lemma PushGet(j: Json, name: string, row: Json, k: string)
    ensures Get(Push(j, name, row), k) == if k == name then Arr(Members(Get(j, name)) + [row]) else Get(j, k)
  {
    if k != name {
      SetKeepsOther(j, name, Arr(Members(Get(j, name)) + [row]), k);
    }
  }

  /** `k` is among the first `n` elements of `s`. */
  predicate Occurs(s: seq<string>, n: nat, k: string)
    requires n <= |s|
  {
    n > 0 && (s[n - 1] == k || Occurs(s, n - 1, k))
  }

  lemma {:induction false} OccursIn(s: seq<string>, n: nat, k: string)
    requires n <= |s|
    ensures Occurs(s, n, k) <==> exists i :: 0 <= i < n && s[i] == k
  {
    if n > 0 {
      OccursIn(s, n - 1, k);
    }
  }

  /** The inner loop appends the row of each of the document's containers, once. */
  lemma {:induction false} AddNamesGet(j: Json, line: Json, names: seq<string>, n: nat, redump: Json -> Json, k: string)
    requires n <= |names|
    requires forall a, b :: 0 <= a < b < |names| ==> names[a] != names[b]
    ensures Get(AddNames(j, line, names, n, redump), k)
            == if Occurs(names, n, k) then Arr(Members(Get(j, k)) + [Row(line, k, redump)]) else Get(j, k)
  {
    if n > 0 {
      AddNamesGet(j, line, names, n - 1, redump, k);
      var before := AddNames(j, line, names, n - 1, redump);
      PushGet(before, names[n - 1], Row(line, names[n - 1], redump), k);
      if k == names[n - 1] {
        OccursIn(names, n - 1, k);
      }
    }
  }

  /** Container names in a document are distinct (keys of a JSON object). */
  predicate NamesDistinct(line: Json) {
    DistinctKeys(Entries(Get(line, "stats")))
  }

  lemma DistinctNames(line: Json)
    requires NamesDistinct(line)
    ensures forall a, b :: 0 <= a < b < |LineNames(line)| ==> LineNames(line)[a] != LineNames(line)[b]
  {
  }

  /** The series of a container after one more document. */
  lemma RowsForStep(lines: seq<Json>, n: nat, name: string, redump: Json -> Json)
    requires 0 < n <= |lines|
    ensures Series(RowsFor(lines, n, name, redump))
            == if name in LineNames(lines[n - 1])
               then Series(RowsFor(lines, n - 1, name, redump) + [Row(lines[n - 1], name, redump)])
               else Series(RowsFor(lines, n - 1, name, redump))
  {
  }

  /** One pass of the inner loop pushes one row onto the series of each container of
      the document, and touches nothing else. */
  lemma AddLineGet(j: Json, line: Json, redump: Json -> Json, k: string)
    requires NamesDistinct(line)
    ensures var names := LineNames(line);
      Get(AddNames(j, line, names, |names|, redump), k)
      == if k in names then Arr(Members(Get(j, k)) + [Row(line, k, redump)]) else Get(j, k)
  {
    var names := LineNames(line);
    DistinctNames(line);
    AddNamesGet(j, line, names, |names|, redump, k);
    OccursIn(names, |names|, k);
  }

  /** One more document pushes its row onto the series of each of its containers. */
  lemma RegroupStep(lines: seq<Json>, n: nat, redump: Json -> Json, name: string)
    requires 0 < n <= |lines|
    requires NamesDistinct(lines[n - 1])
    ensures Get(Regroup(lines, n, redump), name)
            == if name in LineNames(lines[n - 1])
               then Arr(Members(Get(Regroup(lines, n - 1, redump), name)) + [Row(lines[n - 1], name, redump)])
               else Get(Regroup(lines, n - 1, redump), name)
  {
    var line := lines[n - 1];
    var before := Regroup(lines, n - 1, redump);
    assert Regroup(lines, n, redump) == AddNames(before, line, LineNames(line), |LineNames(line)|, redump);
    AddLineGet(before, line, redump, name);
  }

  /** The series of each container holds its rows from every document that has it,
      oldest first; a container that no document has gets no member. */
  lemma {:induction false} RegroupRows(lines: seq<Json>, n: nat, redump: Json -> Json, name: string)
    requires n <= |lines|
    requires forall i :: 0 <= i < |lines| ==> NamesDistinct(lines[i])
    ensures Get(Regroup(lines, n, redump), name) == Series(RowsFor(lines, n, name, redump))
  {
    if n > 0 {
      RegroupRows(lines, n - 1, redump, name);
      RegroupStep(lines, n, redump, name);
      RowsForStep(lines, n, name, redump);
      if name in LineNames(lines[n - 1]) {
        PushSeries(Get(Regroup(lines, n - 1, redump), name), RowsFor(lines, n - 1, name, redump), Row(lines[n - 1], name, redump));
      }
    } else {
      assert Regroup(lines, n, redump) == Obj([]);
    }
  }

  /** The value of the last of the first `n` entries of `kvs` whose key is `k`. */
  function LastLookup(kvs: seq<(string, Json)>, n: nat, k: string): Option<Json>
    requires n <= |kvs|
  {
    if n == 0 then None else if kvs[n - 1].0 == k then Some(kvs[n - 1].1) else LastLookup(kvs, n - 1, k)
  }

  /** After the inserts, a key takes the re-dumped value of its last entry among them,
      and any other key keeps its old value. */
  lemma {:induction false} InsertAllLookup(es: seq<(string, Json)>, kvs: seq<(string, Json)>, n: nat, redump: Json -> Json, k: string)
    requires n <= |kvs|
    ensures Lookup(InsertAll(es, kvs, n, redump), k)
            == match LastLookup(kvs, n, k) case Some(v) => Some(redump(v)) case None => Lookup(es, k)
  {
    if n > 0 {
      InsertAllLookup(es, kvs, n - 1, redump, k);
      if kvs[n - 1].0 != k {
        InsertKeepsOther(InsertAll(es, kvs, n - 1, redump), kvs[n - 1].0, redump(kvs[n - 1].1), k);
      }
    }
  }

  /** With distinct keys the last entry for a key is its only one, the one a lookup
      finds. */
  lemma {:induction false} LastLookupIsLookup(kvs: seq<(string, Json)>, n: nat, k: string)
    requires n <= |kvs|
    requires DistinctKeys(kvs)
    ensures LastLookup(kvs, n, k).Some? ==> LastLookup(kvs, n, k) == Lookup(kvs, k)
    ensures LastLookup(kvs, n, k).None? ==> forall i :: 0 <= i < n ==> kvs[i].0 != k
  {
    if n > 0 {
      LastLookupIsLookup(kvs, n - 1, k);
      if kvs[n - 1].0 == k {
        LookupFirst(kvs, n - 1);
      }
    }
  }

  /** A row holds each of the container's usage members, re-dumped; "time" holds the
      document's time unless the usage carries a "time" member itself; no other key
      is present. */
  lemma RowFields(line: Json, name: string, redump: Json -> Json, k: string)
    requires DistinctKeys(Entries(Get(Get(line, "stats"), name)))
    ensures var usage := Get(Get(line, "stats"), name);
      && (k in Keys(Entries(usage)) ==> Get(Row(line, name, redump), k) == redump(Get(usage, k)))
      && (k !in Keys(Entries(usage)) && k == "time" ==> Get(Row(line, name, redump), k) == OptStr(AsStr(Get(line, "time"))))
      && (k !in Keys(Entries(usage)) && k != "time" ==> Get(Row(line, name, redump), k) == Null)
  {
    var usage := Get(Get(line, "stats"), name);
    var kvs := Entries(usage);
    var start := [("time", OptStr(AsStr(Get(line, "time"))))];
    InsertAllLookup(start, kvs, |kvs|, redump, k);
    LastLookupIsLookup(kvs, |kvs|, k);
    LookupFindsKey(kvs, k);
    LookupFindsKey(start, k);
    if usage.Obj? {
      assert Get(usage, k) == Lookup(kvs, k).GetOr(Null);
    }
  }

  /** The first `n` elements of `xs` satisfy `p`, checked one after the other as
      the loops of `reshape_log_cache` do. */
  predicate AllUpTo<T>(xs: seq<T>, n: nat, p: T -> bool)
    requires n <= |xs|
  {
    n == 0 || (AllUpTo(xs, n - 1, p) && p(xs[n - 1]))
  }

  lemma {:induction false} AllUpToAll<T>(xs: seq<T>, n: nat, p: T -> bool)
    requires n <= |xs|
    ensures AllUpTo(xs, n, p) <==> forall i :: 0 <= i < n ==> p(xs[i])
  {
    if n > 0 {
      AllUpToAll(xs, n - 1, p);
    }
  }

  /** A usage member whose dump parses back. */
  function MemberOk(reparse: Json -> Option<Json>): ((string, Json)) -> bool {
    (kv: (string, Json)) => reparse(kv.1).Some?
  }

  /** `json::parse(&custom_dump(v))` succeeds for every member of the usage of
      container `name` in `line`. */
  predicate RowParses(line: Json, name: string, reparse: Json -> Option<Json>) {
    var kvs := Entries(Get(Get(line, "stats"), name));
    AllUpTo(kvs, |kvs|, MemberOk(reparse))
  }

  /** A container of `line` whose usage re-parses. */
  function RowOk(line: Json, reparse: Json -> Option<Json>): string -> bool {
    name => RowParses(line, name, reparse)
  }

  /** Every container usage of `line` re-parses. */
  predicate LineParses(line: Json, reparse: Json -> Option<Json>) {
    AllUpTo(LineNames(line), |LineNames(line)|, RowOk(line, reparse))
  }

  /** A document that re-parses. */
  function LineOk(reparse: Json -> Option<Json>): Json -> bool {
    line => LineParses(line, reparse)
  }

  /** Every document of the history re-parses. */
  predicate HistoryParses(lines: seq<Json>, reparse: Json -> Option<Json>) {
    AllUpTo(lines, |lines|, LineOk(reparse))
  }

  /** A history re-parses exactly when every usage member of every container of
      every document does. */
  lemma HistoryParsesIff(lines: seq<Json>, reparse: Json -> Option<Json>)
    ensures HistoryParses(lines, reparse) <==>
            forall t :: 0 <= t < |lines| ==>
              forall c :: 0 <= c < |LineNames(lines[t])| ==>
                var kvs := Entries(Get(Get(lines[t], "stats"), LineNames(lines[t])[c]));
                forall e :: 0 <= e < |kvs| ==> reparse(kvs[e].1).Some?
  {
    AllUpToAll(lines, |lines|, LineOk(reparse));
    forall t | 0 <= t < |lines|
      ensures LineParses(lines[t], reparse) <==>
              forall c :: 0 <= c < |LineNames(lines[t])| ==>
                var kvs := Entries(Get(Get(lines[t], "stats"), LineNames(lines[t])[c]));
                forall e :: 0 <= e < |kvs| ==> reparse(kvs[e].1).Some?
    {
      var names := LineNames(lines[t]);
      AllUpToAll(names, |names|, RowOk(lines[t], reparse));
      forall c | 0 <= c < |names|
        ensures RowParses(lines[t], names[c], reparse) <==>
                var kvs := Entries(Get(Get(lines[t], "stats"), names[c]));
                forall e :: 0 <= e < |kvs| ==> reparse(kvs[e].1).Some?
      {
        var kvs := Entries(Get(Get(lines[t], "stats"), names[c]));
        AllUpToAll(kvs, |kvs|, MemberOk(reparse));
      }
    }
  }

  /** The re-parse as a total function, for histories on which it never fails. */
  function Reparsed(reparse: Json -> Option<Json>): Json -> Json {
    v => reparse(v).GetOr(Null)
  }

  /** The row `reshape_log_cache` builds for container `name` of `line`: the
      document's time, then each usage member re-parsed; `None` is the panic of
      `.expect("")` on the first member whose dump does not parse back. */
  method ReshapeRow(line: Json, name: string, reparse: Json -> Option<Json>) returns (r: Option<Json>)
    ensures r.Some? <==> RowParses(line, name, reparse)
    ensures r.Some? ==> r.value == Row(line, name, Reparsed(reparse))
  {
    var redump := Reparsed(reparse);
    var kvs := Entries(Get(Get(line, "stats"), name));
    var stat := [("time", OptStr(AsStr(Get(line, "time"))))];
    for e := 0 to |kvs|
      invariant stat == InsertAll([("time", OptStr(AsStr(Get(line, "time"))))], kvs, e, redump)
      invariant AllUpTo(kvs, e, MemberOk(reparse))
    {
      var v := reparse(kvs[e].1);
      if v.None? {
        AllUpToAll(kvs, |kvs|, MemberOk(reparse));
        return None;
      }
      assert redump(kvs[e].1) == v.value;
      stat := Insert(stat, kvs[e].0, v.value);
    }
    return Some(Obj(stat));
  }

  /** The inner loop of `reshape_log_cache` over the containers of one document:
      pushes each container's row onto its series in `j`. */
  method ReshapeLine(j: Json, line: Json, reparse: Json -> Option<Json>) returns (r: Option<Json>)
    ensures r.Some? <==> LineParses(line, reparse)
    ensures r.Some? ==> r.value == AddNames(j, line, LineNames(line), |LineNames(line)|, Reparsed(reparse))
  {
    var names := LineNames(line);
    var acc := j;
    for c := 0 to |names|
      invariant acc == AddNames(j, line, names, c, Reparsed(reparse))
      invariant AllUpTo(names, c, RowOk(line, reparse))
    {
      var row := ReshapeRow(line, names[c], reparse);
      if row.None? {
        AllUpToAll(names, |names|, RowOk(line, reparse));
        return None;
      }
      acc := Push(acc, names[c], row.value);
    }
    return Some(acc);
  }

  /** The inner loop's outcome on one document: `None` when some usage member
      does not re-parse, else the series with the document's rows pushed. */
  function LineStep(j: Json, line: Json, reparse: Json -> Option<Json>): Option<Json> {
    if LineParses(line, reparse)
    then Some(AddNames(j, line, LineNames(line), |LineNames(line)|, Reparsed(reparse)))
    else None
  }

  /** The outcome of `reshape_log_cache` after the first `n` documents: the first
      document that does not re-parse stops it. */
  function RegroupOpt(lines: seq<Json>, n: nat, reparse: Json -> Option<Json>): Option<Json>
    requires n <= |lines|
  {
    if n == 0 then Some(Obj([]))
    else match RegroupOpt(lines, n - 1, reparse)
      case None => None
      case Some(j) => LineStep(j, lines[n - 1], reparse)
  }

  /** Once stopped, it stays stopped. */
  lemma {:induction false} RegroupOptStops(lines: seq<Json>, n: nat, m: nat, reparse: Json -> Option<Json>)
    requires n <= m <= |lines|
    requires RegroupOpt(lines, n, reparse).None?
    ensures RegroupOpt(lines, m, reparse).None?
    decreases m
  {
    if n < m {
      RegroupOptStops(lines, n, m - 1, reparse);
    }
  }

  /** The partial regrouping succeeds exactly when every document re-parses, and
      then it is the regrouping with the re-parse as a total function. */
  lemma {:induction false} RegroupOptMeaning(lines: seq<Json>, n: nat, reparse: Json -> Option<Json>)
    requires n <= |lines|
    ensures RegroupOpt(lines, n, reparse).Some? <==> AllUpTo(lines, n, LineOk(reparse))
    ensures RegroupOpt(lines, n, reparse).Some? ==> RegroupOpt(lines, n, reparse).value == Regroup(lines, n, Reparsed(reparse))
  {
    if n > 0 {
      RegroupOptMeaning(lines, n - 1, reparse);
      assert AllUpTo(lines, n, LineOk(reparse)) <==>
             AllUpTo(lines, n - 1, LineOk(reparse)) && LineParses(lines[n - 1], reparse);
    }
  }

  /** `reshape_log_cache`: regroup the history into `{<container>: [row, ...]}`.
      `None` is the panic of `.expect("")` on a value whose dump does not parse
      back. */
  method ReshapeLogCache(cache: LC.LogCache, reparse: Json -> Option<Json>) returns (r: Option<Json>)
    requires cache.Valid()
    ensures r.Some? <==> HistoryParses(cache.Data(), reparse)
    ensures r.Some? ==> r.value == Regroup(cache.Data(), |cache.Data()|, Reparsed(reparse))
  {
    var data := cache.Data();
    var j := Obj([]);
    for t := 0 to |data|
      invariant RegroupOpt(data, t, reparse) == Some(j)
    {
      var next := ReshapeLine(j, data[t], reparse);
      if next.None? {
        RegroupOptStops(data, t + 1, |data|, reparse);
        RegroupOptMeaning(data, |data|, reparse);
        return None;
      }
      j := next.value;
    }
    RegroupOptMeaning(data, |data|, reparse);
    return Some(j);
  }

  /** A JSON value holding a NaN or infinite number somewhere. */
  predicate HasNonFinite(j: Json)
    decreases j
  {
    match j
    case NonFinite => true
    case Obj(es) => exists i :: 0 <= i < |es| && HasNonFinite(es[i].1)
    case Arr(items) => exists i :: 0 <= i < |items| && HasNonFinite(items[i])
    case _ => false
  }

  /** When the dump of a non-finite number does not parse back, a history in which
      some container's usage member holds one (a CPU percentage over an unchanged
      system counter) makes `reshape_log_cache` panic. */
  lemma NonFiniteUsagePanics(lines: seq<Json>, t: nat, name: string, k: string, reparse: Json -> Option<Json>)
    requires forall v :: HasNonFinite(v) ==> reparse(v).None?
    requires t < |lines| && name in LineNames(lines[t])
    requires var usage := Get(Get(lines[t], "stats"), name);
             k in Keys(Entries(usage)) && HasNonFinite(Get(usage, k))
    ensures !HistoryParses(lines, reparse)
  {
    var usage := Get(Get(lines[t], "stats"), name);
    var kvs := Entries(usage);
    LookupFindsKey(kvs, k);
    assert usage.Obj?;
    var e :| 0 <= e < |kvs| && kvs[e] == (k, Lookup(kvs, k).value);
    assert Get(usage, k) == kvs[e].1;
    AllUpToAll(kvs, |kvs|, MemberOk(reparse));
    assert !RowParses(lines[t], name, reparse);
    var names := LineNames(lines[t]);
    var c :| 0 <= c < |names| && names[c] == name;
    AllUpToAll(names, |names|, RowOk(lines[t], reparse));
    assert !LineParses(lines[t], reparse);
    AllUpToAll(lines, |lines|, LineOk(reparse));
  }
}
