/** The JSON values the collector reads from the container runtime, builds for every
    tick and keeps in the history buffer, with the handful of accessors the Rust code
    uses on them (`json["key"]`, `as_u64`, `as_str`, `entries`, `members`, `insert`).

    Numbers: `Num` is an integer-valued JSON number; `Float` is a floating-point result
    (an `f32` percentage or ratio), kept as the exact real it approximates; `NonFinite`
    is the infinity or NaN that an `f32` division by zero produces. */
module JsonValue {
  import opened Wrappers

  const U32_LIMIT: int := 0x1_0000_0000
  const U64_LIMIT: int := 0x1_0000_0000_0000_0000

  datatype Json =
    | Null
    | Bool(b: bool)
    | Num(n: int)
    | Float(r: real)
    | NonFinite
    | Str(s: string)
    | Obj(entries: seq<(string, Json)>)
    | Arr(items: seq<Json>)

  /** Keys of an entry list, in order. */
  function Keys(es: seq<(string, Json)>): (ks: seq<string>)
    ensures |ks| == |es|
    ensures forall i :: 0 <= i < |es| ==> ks[i] == es[i].0
  {
    if es == [] then [] else [es[0].0] + Keys(es[1..])
  }

  /** The value of the first entry whose key is `key`. */
  function Lookup(es: seq<(string, Json)>, key: string): (r: Option<Json>)
  {
    if es == [] then None
    else if es[0].0 == key then Some(es[0].1)
    else Lookup(es[1..], key)
  }

  /** A lookup succeeds exactly when the key is among the keys, and then yields the
      value of an entry carrying that key. */
  lemma {:induction false} LookupFindsKey(es: seq<(string, Json)>, key: string)
    ensures Lookup(es, key).Some? <==> key in Keys(es)
    ensures Lookup(es, key).Some? ==> (key, Lookup(es, key).value) in es
  {
    if es != [] {
      LookupFindsKey(es[1..], key);
      assert Keys(es) == [es[0].0] + Keys(es[1..]);
    }
  }

  /** `json[key]`: the entry's value, or `Null` for a missing key or a non-object. */
  function Get(j: Json, key: string): (r: Json)
    ensures !j.Obj? ==> r == Null
  {
    if j.Obj? then Lookup(j.entries, key).GetOr(Null) else Null
  }

  /** `entries()`: the pairs of an object, nothing for any other value. */
  function Entries(j: Json): seq<(string, Json)> {
    if j.Obj? then j.entries else []
  }

  /** `members()`: the elements of an array, nothing for any other value. */
  function Members(j: Json): seq<Json> {
    if j.Arr? then j.items else []
  }

  /** `as_u64()`: present only for a non-negative integral number below 2^64. */
  function AsU64(j: Json): (r: Option<nat>)
    ensures r.Some? ==> r.value < U64_LIMIT
    ensures j.Null? || j.Str? || j.Obj? || j.Arr? || j.Bool? || j.NonFinite? ==> r.None?
    ensures j.Num? ==> (r.Some? <==> 0 <= j.n < U64_LIMIT)
  {
    match j
    case Num(n) => if 0 <= n < U64_LIMIT then Some(n) else None
    case Float(x) =>
      if x == x.Floor as real && 0 <= x.Floor < U64_LIMIT then Some(x.Floor) else None
    case _ => None
  }

  /** `as_u32()`: as `as_u64`, below 2^32. */
  function AsU32(j: Json): (r: Option<nat>)
    ensures r.Some? ==> r.value < U32_LIMIT
    ensures r.Some? ==> AsU64(j) == r
  {
    match AsU64(j)
    case Some(v) => if v < U32_LIMIT then Some(v) else None
    case None => None
  }

  /** `as_str()`. */
  function AsStr(j: Json): Option<string> {
    if j.Str? then Some(j.s) else None
  }

  /** `Option<u64>` converted into a JSON value: `None` becomes `null`. */
  function OptNum(o: Option<nat>): (r: Json)
    ensures o.None? <==> r.Null?
    ensures AsU64(r) == (if o.Some? && o.value < U64_LIMIT then o else None)
  {
    match o
    case Some(v) => Num(v)
    case None => Null
  }

  /** `Option<&str>` converted into a JSON value. */
  function OptStr(o: Option<string>): (r: Json)
    ensures AsStr(r) == o
  {
    match o
    case Some(s) => Str(s)
    case None => Null
  }

  /** The object `insert`: replaces the value of an existing key where it stands,
      or appends a new entry. */
  function Insert(es: seq<(string, Json)>, key: string, v: Json): (r: seq<(string, Json)>)
    ensures Lookup(r, key) == Some(v)
  {
    if es == [] then [(key, v)]
    else if es[0].0 == key then [(key, v)] + es[1..]
    else [es[0]] + Insert(es[1..], key, v)
  }

  /** `json[key] = v`: on an object, `Insert`; any other value is first replaced by an
      empty object. */
  function Set(j: Json, key: string, v: Json): (r: Json)
    ensures r.Obj?
    ensures Get(r, key) == v
  {
    Obj(Insert(Entries(j), key, v))
  }

  /** Inserting one key leaves every other key's value alone. */
  lemma {:induction false} InsertKeepsOther(es: seq<(string, Json)>, key: string, v: Json, k: string)
    requires k != key
    ensures Lookup(Insert(es, key, v), k) == Lookup(es, k)
  {
    if es != [] && es[0].0 != key {
      InsertKeepsOther(es[1..], key, v, k);
    }
  }

  /** Setting one key leaves every other key's value alone. */
  lemma SetKeepsOther(j: Json, key: string, v: Json, k: string)
    requires k != key
    ensures Get(Set(j, key, v), k) == Get(j, k)
  {
    InsertKeepsOther(Entries(j), key, v, k);
  }

  /** Inserting a key the object does not have appends it at the end. */
  lemma {:induction false} AppendNewKey(es: seq<(string, Json)>, key: string, v: Json)
    requires key !in Keys(es)
    ensures Insert(es, key, v) == es + [(key, v)]
  {
    if es != [] {
      assert Keys(es) == [es[0].0] + Keys(es[1..]);
      assert es[0].0 != key;
      AppendNewKey(es[1..], key, v);
      calc {
        Insert(es, key, v);
        [es[0]] + Insert(es[1..], key, v);
        [es[0]] + (es[1..] + [(key, v)]);
        { assert es == [es[0]] + es[1..]; }
        es + [(key, v)];
      }
    }
  }

  /** Looking a key up finds the first entry that carries it. */
  lemma {:induction false} LookupFirst(es: seq<(string, Json)>, i: nat)
    requires i < |es|
    requires forall k :: 0 <= k < i ==> es[k].0 != es[i].0
    ensures Lookup(es, es[i].0) == Some(es[i].1)
  {
    if i > 0 {
      LookupFirst(es[1..], i - 1);
    }
  }

  /** No key occurs twice (the invariant of the Rust `json::object::Object`). */
  predicate DistinctKeys(es: seq<(string, Json)>) {
    forall i, k :: 0 <= i < k < |es| ==> es[i].0 != es[k].0
  }

  /** `insert` keeps the order of the keys: an existing key stays where it is, a new
      one goes last. */
  lemma {:induction false} InsertKeySeq(es: seq<(string, Json)>, key: string, v: Json)
    ensures key in Keys(es) ==> Keys(Insert(es, key, v)) == Keys(es)
    ensures key !in Keys(es) ==> Keys(Insert(es, key, v)) == Keys(es) + [key]
  {
    if es != [] {
      InsertKeySeq(es[1..], key, v);
      assert Keys(es) == [es[0].0] + Keys(es[1..]);
      var r := Insert(es, key, v);
      if es[0].0 == key {
        assert Keys(r) == [key] + Keys(es[1..]);
      } else {
        assert Keys(r) == [es[0].0] + Keys(Insert(es[1..], key, v));
      }
    }
  }

  /** After `insert` the keys are the old ones and the inserted one. */
  lemma InsertKeys(es: seq<(string, Json)>, key: string, v: Json)
    ensures forall k :: k in Keys(Insert(es, key, v)) <==> k in Keys(es) || k == key
  {
    InsertKeySeq(es, key, v);
  }

  /** `insert` keeps the keys distinct. */
  lemma InsertKeepsDistinct(es: seq<(string, Json)>, key: string, v: Json)
    requires DistinctKeys(es)
    ensures DistinctKeys(Insert(es, key, v))
  {
    var r := Insert(es, key, v);
    InsertKeySeq(es, key, v);
    assert forall i :: 0 <= i < |r| ==> r[i].0 == Keys(r)[i];
    assert forall i :: 0 <= i < |es| ==> es[i].0 == Keys(es)[i];
  }

  /** The keys of two entry lists placed one after the other. */
  lemma KeysConcat(a: seq<(string, Json)>, b: seq<(string, Json)>)
    ensures Keys(a + b) == Keys(a) + Keys(b)
  {
    assert |Keys(a + b)| == |Keys(a) + Keys(b)|;
    forall i | 0 <= i < |a + b| ensures Keys(a + b)[i] == (Keys(a) + Keys(b))[i] {
      if i < |a| {
        assert (a + b)[i] == a[i];
      } else {
        assert (a + b)[i] == b[i - |a|];
      }
    }
  }

  /** A lookup in two entry lists placed one after the other tries the first list first. */
  lemma {:induction false} LookupConcat(a: seq<(string, Json)>, b: seq<(string, Json)>, key: string)
    ensures Lookup(a + b, key) == if Lookup(a, key).Some? then Lookup(a, key) else Lookup(b, key)
  {
    if a != [] {
      assert (a + b)[0] == a[0] && (a + b)[1..] == a[1..] + b;
      LookupConcat(a[1..], b, key);
    } else {
      assert a + b == b;
    }
  }
}
