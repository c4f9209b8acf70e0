/** `/proc/meminfo` as read by src/cephylas/mem_info.rs: `MemInfo::from_str` reads its
    eighteen fields from the first eighteen lines, in order, through one shared line
    cursor. */
module Mem {
  import opened Wrappers
  import opened Text
  import opened ProcFields

  /** Sizes in kB, each a `u64`. */
  datatype MemInfo = MemInfo(
    total: int, free: int, available: int, buffers: int, cached: int, swapCached: int,
    active: int, inactive: int, activeAnon: int, inactiveAnon: int,
    activeFile: int, inactiveFile: int, unevictable: int, mlocked: int,
    swapTotal: int, swapFree: int, dirty: int, writeback: int)

  /** The first word of each expected line, in the order `from_str` reads them. */
  const Signatures: seq<string> := [
    "MemTotal:", "MemFree:", "MemAvailable:", "Buffers:", "Cached:", "SwapCached:",
    "Active:", "Inactive:", "Active(anon):", "Inactive(anon):",
    "Active(file):", "Inactive(file):", "Unevictable:", "Mlocked:",
    "SwapTotal:", "SwapFree:", "Dirty:", "Writeback:"]

  /** The fields of a reading, in declaration order. */
  function Fields(m: MemInfo): (v: seq<int>)
    ensures |v| == |Signatures|
  {
    [m.total, m.free, m.available, m.buffers, m.cached, m.swapCached,
     m.active, m.inactive, m.activeAnon, m.inactiveAnon,
     m.activeFile, m.inactiveFile, m.unevictable, m.mlocked,
     m.swapTotal, m.swapFree, m.dirty, m.writeback]
  }

  /** The reading whose fields are `v`, in declaration order. */
  function OfFields(v: seq<int>): (m: MemInfo)
    requires |v| == |Signatures|
    ensures Fields(m) == v
  {
    MemInfo(v[0], v[1], v[2], v[3], v[4], v[5], v[6], v[7], v[8],
            v[9], v[10], v[11], v[12], v[13], v[14], v[15], v[16], v[17])
  }

  // ---------------------------------------------------------------------------
  // one line

  /** `parse_line` once its line is taken: the first word must be the signature and
      the second a `u64`; anything after it (the unit "kB") is ignored. */
  function ParseLine(line: string, sig: string): (r: Result<int, FieldError>)
    ensures r.Ok? ==> 0 <= r.value <= U64_MAX
    ensures r.Err? ==> r.error.EntryNotFound? || r.error.InvalidEntry?
    ensures r.Err? ==> r.error.name == sig
  {
    var ws := Words(line);
    if |ws| == 0 || ws[0] != sig || |ws| < 2 then Err(EntryNotFound(sig))
    else
      match ParseU64(ws[1])
      case Err(k) => Err(InvalidEntry(sig, k))
      case Ok(v) => Ok(v)
  }

  /** A line printed as the signature, the number and any further words (such as
      the unit) parses back to the number. */
  lemma ParseLinePrinted(sig: string, v: nat, rest: seq<string>)
    requires sig != [] && !HasWhitespace(sig) && v <= U64_MAX
    requires forall i :: 0 <= i < |rest| ==> rest[i] != [] && !HasWhitespace(rest[i])
    ensures ParseLine(Join([sig, NatToString(v)] + rest, " "), sig) == Ok(v)
  {
    var n := NatToString(v);
    assert !HasWhitespace(n) by {
      forall i | 0 <= i < |n| ensures !IsAsciiWhitespace(n[i]) {
        assert IsDigit(n[i]);
      }
    }
    var ws := [sig, n] + rest;
    assert forall i :: 0 <= i < |ws| ==> ws[i] != [] && !HasWhitespace(ws[i]) by {
      forall i | 0 <= i < |ws| ensures ws[i] != [] && !HasWhitespace(ws[i]) {
        if i >= 2 {
          assert ws[i] == rest[i - 2];
        }
      }
    }
    WordsOfJoin(ws);
    ParsePrintedU64(v);
  }

  // ---------------------------------------------------------------------------
  // the sequential reader

  /** The `parse_line` calls of `from_str`: signature `i` is looked for on line `i`,
      the first failure wins. */
  function ReadLines(lines: seq<string>, sigs: seq<string>): (r: Result<seq<int>, FieldError>)
    ensures r.Ok? ==> |r.value| == |sigs| <= |lines|
    decreases |sigs|
  {
    if sigs == [] then Ok([])
    else if lines == [] then Err(EntryNotFound(sigs[0]))
    else
      match ParseLine(lines[0], sigs[0])
      case Err(e) => Err(e)
      case Ok(v) => Prepend([v], ReadLines(lines[1..], sigs[1..]))
  }

  /** What `from_str` returns for the contents of the file. */
  function ParseMemInfo(s: string): Result<MemInfo, FieldError> {
    match ReadLines(Lines(s), Signatures)
    case Err(e) => Err(e)
    case Ok(v) => Ok(OfFields(v))
  }

  /** `parse_line` over the shared line cursor: it takes the next line, whatever the
      outcome. */
  method ParseNextLine(lines: Cursor, sig: string) returns (r: Result<int, FieldError>)
    modifies lines
    ensures r == if old(lines.rest) == [] then Err(EntryNotFound(sig)) else ParseLine(old(lines.rest)[0], sig)
    ensures lines.rest == if old(lines.rest) == [] then [] else old(lines.rest)[1..]
  {
    var line := lines.Next();
    if line.None? {
      return Err(EntryNotFound(sig));
    }
    var tokens := new Cursor(Words(line.value));
    var procSignature := tokens.Next();
    if procSignature.None? || procSignature.value != sig {
      return Err(EntryNotFound(sig));
    }
    var value := tokens.Next();
    if value.None? {
      return Err(EntryNotFound(sig));
    }
    match ParseU64(value.value) {
      case Err(k) => r := Err(InvalidEntry(sig, k));
      case Ok(v) => r := Ok(v);
    }
  }

  /** `MemInfo::from_str`: one `parse_line` per field, in declaration order. */
  method MemInfoFromStr(s: string) returns (r: Result<MemInfo, FieldError>)
    ensures r == ParseMemInfo(s)
  {
    var lines := new Cursor(Lines(s));
    ghost var l0 := lines.rest;
    var sigs := Signatures;
    var vals: seq<int> := [];
    var i := 0;
    assert l0[0..] == l0 && sigs[0..] == sigs;
    PrependNothing(ReadLines(l0, sigs));
    while i < |sigs|
      invariant 0 <= i <= |sigs| && i <= |l0|
      invariant |vals| == i
      invariant lines.rest == l0[i..]
      invariant ReadLines(l0, sigs) == Prepend(vals, ReadLines(l0[i..], sigs[i..]))
    {
      var v := ParseNextLine(lines, sigs[i]);
      assert sigs[i..][0] == sigs[i];
      if v.Err? {
        assert ReadLines(l0[i..], sigs[i..]) == Err(v.error);
        return Err(v.error);
      }
      assert ReadLines(l0[i..], sigs[i..]) == Prepend([v.value], ReadLines(l0[i + 1..], sigs[i + 1..])) by {
        assert l0[i..][1..] == l0[i + 1..];
        assert sigs[i..][1..] == sigs[i + 1..];
      }
      PrependTwice(vals, [v.value], ReadLines(l0[i + 1..], sigs[i + 1..]));
      vals := vals + [v.value];
      i := i + 1;
    }
    assert sigs[i..] == [];
    assert vals + [] == vals;
    return Ok(OfFields(vals));
  }

  /** All lines read when each of the first `|sigs|` lines carries its signature and a
      number, and value `i` is the number on line `i`. */
  lemma {:induction false} ReadLinesOk(lines: seq<string>, sigs: seq<string>)
    ensures ReadLines(lines, sigs).Ok? <==>
      |sigs| <= |lines| && forall i :: 0 <= i < |sigs| ==> ParseLine(lines[i], sigs[i]).Ok?
    ensures ReadLines(lines, sigs).Ok? ==>
      forall i :: 0 <= i < |sigs| ==> ParseLine(lines[i], sigs[i]) == Ok(ReadLines(lines, sigs).value[i])
    decreases |sigs|
  {
    if sigs != [] && lines != [] && ParseLine(lines[0], sigs[0]).Ok? {
      ReadLinesOk(lines[1..], sigs[1..]);
      assert forall i :: 1 <= i < |sigs| && i < |lines| ==>
        lines[1..][i - 1] == lines[i] && sigs[1..][i - 1] == sigs[i];
      if |sigs| <= |lines| && forall i :: 0 <= i < |sigs| ==> ParseLine(lines[i], sigs[i]).Ok? {
        assert forall i :: 0 <= i < |sigs| - 1 ==> ParseLine(lines[1..][i], sigs[1..][i]).Ok?;
      }
    }
  }

  /** Line `j` is there and carries signature `j` and a number. */
  predicate LineOk(lines: seq<string>, sigs: seq<string>, j: nat)
    requires j < |sigs|
  {
    j < |lines| && ParseLine(lines[j], sigs[j]).Ok?
  }

  /** The first line that is missing or does not parse names the error. */
  lemma {:induction false} ReadLinesFirstFailure(lines: seq<string>, sigs: seq<string>, i: nat)
    requires i < |sigs| && !LineOk(lines, sigs, i)
    requires forall j :: 0 <= j < i ==> LineOk(lines, sigs, j)
    ensures ReadLines(lines, sigs) ==
      Err(if i >= |lines| then EntryNotFound(sigs[i]) else ParseLine(lines[i], sigs[i]).error)
    decreases i
  {
    if i > 0 {
      assert LineOk(lines, sigs, 0);
      forall j | 0 <= j < i - 1
        ensures LineOk(lines[1..], sigs[1..], j)
      {
        assert LineOk(lines, sigs, j + 1);
        assert lines[1..][j] == lines[j + 1] && sigs[1..][j] == sigs[j + 1];
      }
      if i < |lines| {
        assert lines[1..][i - 1] == lines[i];
      }
      ReadLinesFirstFailure(lines[1..], sigs[1..], i - 1);
    }
  }

  /** Lines after the last signature's line are never looked at. */
  lemma {:induction false} ReadLinesIgnoresExtra(lines: seq<string>, extra: seq<string>, sigs: seq<string>)
    requires |sigs| <= |lines|
    ensures ReadLines(lines + extra, sigs) == ReadLines(lines, sigs)
    decreases |sigs|
  {
    if sigs != [] {
      assert (lines + extra)[0] == lines[0];
      assert (lines + extra)[1..] == lines[1..] + extra;
      ReadLinesIgnoresExtra(lines[1..], extra, sigs[1..]);
    }
  }

  /** The contents are read when each of the first eighteen lines starts with its
      signature word followed by a `u64`; field `i` comes from line `i` and lines after
      the eighteenth are ignored. */
  lemma ParseMemInfoFields(s: string)
    ensures var ls := Lines(s);
      ParseMemInfo(s).Ok? <==>
        |ls| >= 18 && forall i :: 0 <= i < 18 ==> ParseLine(ls[i], Signatures[i]).Ok?
    ensures ParseMemInfo(s).Ok? ==>
      forall i :: 0 <= i < 18 ==> ParseLine(Lines(s)[i], Signatures[i]) == Ok(Fields(ParseMemInfo(s).value)[i])
  {
    ReadLinesOk(Lines(s), Signatures);
  }
}
