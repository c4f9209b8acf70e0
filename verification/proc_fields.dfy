/** What the host parsers of cpu_info.rs, disk_info.rs, both net_info.rs and both
    mem_info.rs share: the `EntryNotFound` / `InvalidEntry` error shape, the token
    cursor they thread through their helpers (`&mut dyn Iterator<Item = &str>` over
    `split_ascii_whitespace`, or `&mut Lines`), and the field-by-field reading of
    `parse_token`, one token per field, the first failure winning. */
module ProcFields {
  import opened Wrappers
  import opened Text

  /** The parse errors of the four `*InfoError` enums; `IoFailure` is the `IOError` of
      reading the `/proc` file, carried with its message. */
  datatype FieldError =
    | EntryNotFound(name: string)
    | InvalidEntry(name: string, kind: IntErrorKind)
    | IoFailure(message: string)

  // ---------------------------------------------------------------------------
  // reading mandatory fields

  /** Field `i` is readable: its token is there and is an `i64`. */
  predicate FieldOk(tokens: seq<string>, i: nat) {
    i < |tokens| && ParseI64(tokens[i]).Ok?
  }

  /** The error of field `i` when it is not readable. */
  function Failure(tokens: seq<string>, names: seq<string>, i: nat): FieldError
    requires i < |names|
  {
    if i >= |tokens| then EntryNotFound(names[i])
    else match ParseI64(tokens[i])
      case Err(k) => InvalidEntry(names[i], k)
      case Ok(_) => EntryNotFound(names[i])
  }

  /** One `parse_token` per name, in order: a missing token is `EntryNotFound(name)`,
      a token that is not an `i64` is `InvalidEntry(name, _)`; `?` stops at the first. */
  function ReadFields(tokens: seq<string>, names: seq<string>): (r: Result<seq<int>, FieldError>)
    ensures r.Ok? ==> |r.value| == |names| <= |tokens|
    decreases |names|
  {
    if |names| == 0 then Ok([])
    else if |tokens| == 0 then Err(EntryNotFound(names[0]))
    else
      match ParseI64(tokens[0])
      case Err(k) => Err(InvalidEntry(names[0], k))
      case Ok(v) =>
        match ReadFields(tokens[1..], names[1..])
        case Err(e) => Err(e)
        case Ok(vs) => Ok([v] + vs)
  }

  /** Reading succeeds exactly when every field is readable, and then field `i` holds
      the value of token `i`. */
  lemma {:induction false} ReadFieldsOk(tokens: seq<string>, names: seq<string>)
    ensures ReadFields(tokens, names).Ok? <==> forall i :: 0 <= i < |names| ==> FieldOk(tokens, i)
    ensures ReadFields(tokens, names).Ok? ==>
      forall i :: 0 <= i < |names| ==> ParseI64(tokens[i]) == Ok(ReadFields(tokens, names).value[i])
    decreases |names|
  {
    if |names| > 0 && !FieldOk(tokens, 0) {
      assert ReadFields(tokens, names).Err?;
    } else if |names| > 0 {
      ReadFieldsOk(tokens[1..], names[1..]);
      if forall i :: 0 <= i < |names| - 1 ==> FieldOk(tokens[1..], i) {
        forall i | 0 <= i < |names|
          ensures FieldOk(tokens, i)
        {
          if i > 0 {
            assert FieldOk(tokens[1..], i - 1);
          }
        }
      }
      if forall i :: 0 <= i < |names| ==> FieldOk(tokens, i) {
        forall i | 0 <= i < |names| - 1
          ensures FieldOk(tokens[1..], i)
        {
          assert FieldOk(tokens, i + 1);
        }
      }
    }
  }

  /** The error is the one of the first unreadable field. */
  lemma {:induction false} ReadFieldsFirstFailure(tokens: seq<string>, names: seq<string>, i: nat)
    requires i < |names| && !FieldOk(tokens, i)
    requires forall j :: 0 <= j < i ==> FieldOk(tokens, j)
    ensures ReadFields(tokens, names) == Err(Failure(tokens, names, i))
    decreases |names|
  {
    if i > 0 {
      assert FieldOk(tokens, 0);
      forall j | 0 <= j < i - 1
        ensures FieldOk(tokens[1..], j)
      {
        assert FieldOk(tokens, j + 1);
      }
      ReadFieldsFirstFailure(tokens[1..], names[1..], i - 1);
    }
  }

  /** Tokens after the last field are never looked at. */
  lemma {:induction false} ReadFieldsIgnoresExtra(tokens: seq<string>, extra: seq<string>, names: seq<string>)
    requires |names| <= |tokens|
    ensures ReadFields(tokens + extra, names) == ReadFields(tokens, names)
    decreases |names|
  {
    if |names| > 0 {
      assert (tokens + extra)[0] == tokens[0];
      assert (tokens + extra)[1..] == tokens[1..] + extra;
      ReadFieldsIgnoresExtra(tokens[1..], extra, names[1..]);
    }
  }

  // ---------------------------------------------------------------------------
  // reading optional fields

  /** `parse_next_token_optional` per name: once the tokens run out every further
      field is `None` (the iterator is fused); a token that is there must parse. */
  function ReadOptionals(tokens: seq<string>, names: seq<string>): (r: Result<seq<Option<int>>, FieldError>)
    ensures r.Ok? ==> |r.value| == |names|
    decreases |names|
  {
    if |names| == 0 then Ok([])
    else if |tokens| == 0 then
      match ReadOptionals([], names[1..])
      case Err(e) => Err(e)
      case Ok(vs) => Ok([None] + vs)
    else
      match ParseI64(tokens[0])
      case Err(k) => Err(InvalidEntry(names[0], k))
      case Ok(v) =>
        match ReadOptionals(tokens[1..], names[1..])
        case Err(e) => Err(e)
        case Ok(vs) => Ok([Some(v)] + vs)
  }

  /** Reading optional fields fails only on a present token that does not parse;
      otherwise field `i` is token `i`'s value, or `None` past the last token. */
  lemma {:induction false} ReadOptionalsOk(tokens: seq<string>, names: seq<string>)
    ensures ReadOptionals(tokens, names).Ok? <==>
      forall i :: 0 <= i < |names| && i < |tokens| ==> ParseI64(tokens[i]).Ok?
    ensures ReadOptionals(tokens, names).Ok? ==>
      forall i :: 0 <= i < |names| ==>
        if i < |tokens| then ParseI64(tokens[i]).Ok? && ReadOptionals(tokens, names).value[i] == Some(ParseI64(tokens[i]).value)
        else ReadOptionals(tokens, names).value[i] == None
    decreases |names|
  {
    if |names| > 0 {
      if |tokens| == 0 {
        ReadOptionalsOk([], names[1..]);
      } else if ParseI64(tokens[0]).Ok? {
        ReadOptionalsOk(tokens[1..], names[1..]);
        assert forall i :: 1 <= i < |tokens| ==> tokens[1..][i - 1] == tokens[i];
      }
    }
  }

  /** The error is the one of the first token that is there and does not parse. */
  lemma {:induction false} ReadOptionalsFirstFailure(tokens: seq<string>, names: seq<string>, i: nat)
    requires i < |names| && i < |tokens| && ParseI64(tokens[i]).Err?
    requires forall j :: 0 <= j < i ==> ParseI64(tokens[j]).Ok?
    ensures ReadOptionals(tokens, names) == Err(InvalidEntry(names[i], ParseI64(tokens[i]).error))
    decreases |names|
  {
    if i > 0 {
      assert ParseI64(tokens[0]).Ok?;
      forall j | 0 <= j < i - 1
        ensures ParseI64(tokens[1..][j]).Ok?
      {
        assert tokens[1..][j] == tokens[j + 1];
      }
      ReadOptionalsFirstFailure(tokens[1..], names[1..], i - 1);
    }
  }

  /** `ReadFieldsOk` for fields that start at word `k` of a line: they are read when
      the line has a parsable word at each of the positions `k .. k + |names| - 1`, and
      field `i` is the value of word `k + i`. */
  lemma ReadFieldsAt(ws: seq<string>, k: nat, names: seq<string>)
    requires k <= |ws|
    ensures ReadFields(ws[k..], names).Ok? <==>
      |ws| >= k + |names| && forall i :: k <= i < k + |names| ==> ParseI64(ws[i]).Ok?
    ensures ReadFields(ws[k..], names).Ok? ==>
      forall i :: 0 <= i < |names| ==> ParseI64(ws[k + i]) == Ok(ReadFields(ws[k..], names).value[i])
  {
    ReadFieldsOk(ws[k..], names);
    assert forall i :: 0 <= i < |ws| - k ==> ws[k..][i] == ws[k + i];
    if |ws| >= k + |names| && forall i :: k <= i < k + |names| ==> ParseI64(ws[i]).Ok? {
      assert forall i :: 0 <= i < |names| ==> FieldOk(ws[k..], i);
    }
    if |names| > 0 && |ws| < k + |names| {
      assert !FieldOk(ws[k..], |ws| - k);
    } else if !forall i :: k <= i < k + |names| ==> ParseI64(ws[i]).Ok? {
      var i :| k <= i < k + |names| && !ParseI64(ws[i]).Ok?;
      assert !FieldOk(ws[k..], i - k);
    }
  }

  /** Optional field `o` read from word `k`: there and parsed, or absent past the end. */
  predicate OptionalAt(ws: seq<string>, k: nat, o: Option<int>) {
    if k < |ws| then ParseI64(ws[k]).Ok? && o == Some(ParseI64(ws[k]).value) else o == None
  }

  /** `ReadOptionalsOk` for optional fields that start at word `k` of a line. */
  lemma ReadOptionalsAt(ws: seq<string>, k: nat, names: seq<string>)
    requires k <= |ws|
    ensures ReadOptionals(ws[k..], names).Ok? <==>
      forall i :: k <= i < |ws| && i < k + |names| ==> ParseI64(ws[i]).Ok?
    ensures ReadOptionals(ws[k..], names).Ok? ==>
      forall i :: 0 <= i < |names| ==> OptionalAt(ws, k + i, ReadOptionals(ws[k..], names).value[i])
  {
    ReadOptionalsOk(ws[k..], names);
    assert forall i :: 0 <= i < |ws| - k ==> ws[k..][i] == ws[k + i];
    if forall i :: k <= i < |ws| && i < k + |names| ==> ParseI64(ws[i]).Ok? {
      assert forall i :: 0 <= i < |names| && i < |ws| - k ==> ParseI64(ws[k..][i]).Ok?;
    } else {
      var i :| k <= i < |ws| && i < k + |names| && !ParseI64(ws[i]).Ok?;
      assert !ParseI64(ws[k..][i - k]).Ok?;
    }
  }

  // ---------------------------------------------------------------------------
  // the cursor

  /** An iterator over tokens or lines: what is left of it. */
  class Cursor {
    var rest: seq<string>

    constructor (items: seq<string>)
      ensures rest == items
    {
      rest := items;
    }

    /** `next()`. */
    method Next() returns (item: Option<string>)
      modifies this
      ensures old(rest) == [] ==> item == None && rest == []
      ensures old(rest) != [] ==> item == Some(old(rest)[0]) && rest == old(rest)[1..]
    {
      if rest == [] {
        item := None;
      } else {
        item := Some(rest[0]);
        rest := rest[1..];
      }
    }

    /** `nth(n)`: drops up to `n + 1` items. */
    method Nth(n: nat) returns (item: Option<string>)
      modifies this
      ensures n < |old(rest)| ==> item == Some(old(rest)[n]) && rest == old(rest)[n + 1..]
      ensures n >= |old(rest)| ==> item == None && rest == []
    {
      if n < |rest| {
        item := Some(rest[n]);
        rest := rest[n + 1..];
      } else {
        item := None;
        rest := [];
      }
    }
  }

  /** `parse_token`: the next token as an `i64`. */
  method ParseToken(tokens: Cursor, name: string) returns (r: Result<int, FieldError>)
    modifies tokens
    ensures r.Ok? <==> FieldOk(old(tokens.rest), 0)
    ensures r.Err? ==> r.error == Failure(old(tokens.rest), [name], 0)
    ensures r.Ok? ==> r.value == ParseI64(old(tokens.rest)[0]).value
    ensures tokens.rest == if old(tokens.rest) == [] then [] else old(tokens.rest)[1..]
  {
    var t := tokens.Next();
    if t.None? {
      return Err(EntryNotFound(name));
    }
    var p := ParseI64(t.value);
    match p {
      case Err(k) => r := Err(InvalidEntry(name, k));
      case Ok(v) => r := Ok(v);
    }
  }

  /** `Ok(vals + rest)` where the remaining reads succeed. */
  function Prepend(vals: seq<int>, r: Result<seq<int>, FieldError>): Result<seq<int>, FieldError> {
    match r
    case Err(e) => Err(e)
    case Ok(vs) => Ok(vals + vs)
  }

  /** The `parse_token` calls of a `from_str`, one per field, stopping at the first
      failure; on success the cursor has moved past the fields. */
  method ParseFields(tokens: Cursor, names: seq<string>) returns (r: Result<seq<int>, FieldError>)
    modifies tokens
    ensures r == ReadFields(old(tokens.rest), names)
    ensures r.Ok? ==> tokens.rest == old(tokens.rest)[|names|..]
  {
    ghost var t0 := tokens.rest;
    var vals: seq<int> := [];
    var i := 0;
    assert t0[0..] == t0 && names[0..] == names;
    PrependNothing(ReadFields(t0, names));
    while i < |names|
      invariant 0 <= i <= |names| && i <= |t0|
      invariant |vals| == i
      invariant tokens.rest == t0[i..]
      invariant ReadFields(t0, names) == Prepend(vals, ReadFields(t0[i..], names[i..]))
    {
      var v := ParseToken(tokens, names[i]);
      if v.Err? {
        assert names[i..][0] == names[i];
        assert ReadFields(t0[i..], names[i..]) == Err(v.error);
        return Err(v.error);
      }
      assert ReadFields(t0[i..], names[i..]) == Prepend([v.value], ReadFields(t0[i + 1..], names[i + 1..])) by {
        assert t0[i..][1..] == t0[i + 1..];
        assert names[i..][1..] == names[i + 1..];
      }
      PrependTwice(vals, [v.value], ReadFields(t0[i + 1..], names[i + 1..]));
      vals := vals + [v.value];
      i := i + 1;
    }
    assert names[i..] == [];
    assert vals + [] == vals;
    return Ok(vals);
  }

  lemma PrependNothing(r: Result<seq<int>, FieldError>)
    ensures Prepend([], r) == r
  {
    if r.Ok? {
      assert [] + r.value == r.value;
    }
  }

  lemma PrependTwice(a: seq<int>, b: seq<int>, r: Result<seq<int>, FieldError>)
    ensures Prepend(a, Prepend(b, r)) == Prepend(a + b, r)
  {
    if r.Ok? {
      assert a + (b + r.value) == (a + b) + r.value;
    }
  }

  /** The `parse_next_token_optional` calls, one per field. */
  method ParseOptionalFields(tokens: Cursor, names: seq<string>) returns (r: Result<seq<Option<int>>, FieldError>)
    modifies tokens
    ensures r == ReadOptionals(old(tokens.rest), names)
  {
    ghost var t0 := tokens.rest;
    var vals: seq<Option<int>> := [];
    var i := 0;
    assert names[0..] == names;
    PrependOptionalNothing(ReadOptionals(t0, names));
    while i < |names|
      invariant 0 <= i <= |names|
      invariant ReadOptionals(t0, names) == PrependOptional(vals, ReadOptionals(tokens.rest, names[i..]))
    {
      ghost var before := tokens.rest;
      var t := tokens.Next();
      var v: Option<int> := None;
      if t.Some? {
        var p := ParseI64(t.value);
        if p.Err? {
          assert names[i..][0] == names[i];
          assert ReadOptionals(before, names[i..]) == Err(InvalidEntry(names[i], p.error));
          return Err(InvalidEntry(names[i], p.error));
        }
        v := Some(p.value);
      }
      assert ReadOptionals(before, names[i..]) == PrependOptional([v], ReadOptionals(tokens.rest, names[i + 1..])) by {
        assert names[i..][1..] == names[i + 1..];
      }
      PrependOptionalTwice(vals, [v], ReadOptionals(tokens.rest, names[i + 1..]));
      vals := vals + [v];
      i := i + 1;
    }
    assert names[i..] == [];
    assert vals + [] == vals;
    return Ok(vals);
  }

  function PrependOptional(vals: seq<Option<int>>, r: Result<seq<Option<int>>, FieldError>): Result<seq<Option<int>>, FieldError> {
    match r
    case Err(e) => Err(e)
    case Ok(vs) => Ok(vals + vs)
  }

  lemma PrependOptionalNothing(r: Result<seq<Option<int>>, FieldError>)
    ensures PrependOptional([], r) == r
  {
    if r.Ok? {
      assert [] + r.value == r.value;
    }
  }

  lemma PrependOptionalTwice(a: seq<Option<int>>, b: seq<Option<int>>, r: Result<seq<Option<int>>, FieldError>)
    ensures PrependOptional(a, PrependOptional(b, r)) == PrependOptional(a + b, r)
  {
    if r.Ok? {
      assert a + (b + r.value) == (a + b) + r.value;
    }
  }
}
