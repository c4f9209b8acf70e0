/** The earlier copy of the `/proc/net/dev` parser, src/net_info.rs. Its data types
    and their differences are those of src/cephylas/net_info.rs (module `Net`); its
    `from_str` writes out the sixteen reads one after the other, each a `next()` and
    an `i64` parse with the field's name in the error, instead of calling a
    `parse_token` helper. */
module NetEarly {
  import opened Wrappers
  import opened Text
  import opened ProcFields
  import Net

  /** `NetInfo::from_str`. The sixteen reads are the iterations of the loop, one per
      entry name of `Net.FieldNames`; the method gives the same result as the later
      parser on every line. */
  method NetInfoFromStr(s: string) returns (r: Result<Net.NetInfo, FieldError>)
    ensures r == Net.ParseNetInfo(s)
  {
    var tokens := new Cursor(Words(s));
    var _ := tokens.Next();
    ghost var t0 := tokens.rest;
    var names := Net.FieldNames;
    var vals: seq<int> := [];
    var i := 0;
    assert t0[0..] == t0 && names[0..] == names;
    PrependNothing(ReadFields(t0, names));
    while i < |names|
      invariant 0 <= i <= |names| && i <= |t0|
      invariant |vals| == i
      invariant tokens.rest == t0[i..]
      invariant ReadFields(t0, names) == Prepend(vals, ReadFields(t0[i..], names[i..]))
    {
      var t := tokens.Next();
      assert names[i..][0] == names[i];
      if t.None? {
        assert ReadFields(t0[i..], names[i..]) == Err(EntryNotFound(names[i]));
        return Err(EntryNotFound(names[i]));
      }
      var p := ParseI64(t.value);
      if p.Err? {
        assert ReadFields(t0[i..], names[i..]) == Err(InvalidEntry(names[i], p.error));
        return Err(InvalidEntry(names[i], p.error));
      }
      assert ReadFields(t0[i..], names[i..]) == Prepend([p.value], ReadFields(t0[i + 1..], names[i + 1..])) by {
        assert t0[i..][1..] == t0[i + 1..];
        assert names[i..][1..] == names[i + 1..];
      }
      PrependTwice(vals, [p.value], ReadFields(t0[i + 1..], names[i + 1..]));
      vals := vals + [p.value];
      i := i + 1;
    }
    assert names[i..] == [];
    assert vals + [] == vals;
    return Ok(Net.OfFields(vals));
  }
}
