/** `/proc/meminfo` as read by core/src/cephylas/mem_info.rs: the lines are collected
    once and each field comes from the first line that starts with its signature,
    wherever that line is. The data types and the per-line check are those of
    src/cephylas/mem_info.rs (module `Mem`). */
module MemSearch {
  import opened Wrappers
  import opened Text
  import opened ProcFields
  import opened Mem

  /** `lines.iter().find(|l| l.starts_with(signature))`. */
  function FindLine(lines: seq<string>, sig: string): (r: Option<string>)
    ensures r.None? <==> forall i :: 0 <= i < |lines| ==> !StartsWith(lines[i], sig)
    ensures r.Some? ==> exists i :: 0 <= i < |lines| && lines[i] == r.value && FirstStarting(lines, sig, i)
    decreases |lines|
  {
    if lines == [] then None
    else if StartsWith(lines[0], sig) then
      assert FirstStarting(lines, sig, 0);
      Some(lines[0])
    else
      var r := FindLine(lines[1..], sig);
      if r.Some? then
        var i :| 0 <= i < |lines[1..]| && lines[1..][i] == r.value && FirstStarting(lines[1..], sig, i);
        assert FirstStarting(lines, sig, i + 1) by {
          forall j | 0 <= j < i + 1 ensures !StartsWith(lines[j], sig) {
            if j > 0 {
              assert lines[j] == lines[1..][j - 1];
            }
          }
        }
        r
      else
        assert forall i :: 1 <= i < |lines| ==> lines[i] == lines[1..][i - 1];
        r
  }

  /** Line `i` is the first line that starts with `sig`. */
  predicate FirstStarting(lines: seq<string>, sig: string, i: nat) {
    i < |lines| && StartsWith(lines[i], sig) && forall j :: 0 <= j < i ==> !StartsWith(lines[j], sig)
  }

  /** `parse_line`: no line with the signature gives `EntryNotFound`, otherwise the
      found line is checked as in the sequential reader. */
  function ParseLineSearch(lines: seq<string>, sig: string): Result<int, FieldError> {
    match FindLine(lines, sig)
    case None => Err(EntryNotFound(sig))
    case Some(line) => ParseLine(line, sig)
  }

  /** The `parse_line` calls of `from_str`, one per signature, the first failure
      winning. */
  function ReadSearch(lines: seq<string>, sigs: seq<string>): (r: Result<seq<int>, FieldError>)
    ensures r.Ok? ==> |r.value| == |sigs|
    decreases |sigs|
  {
    if sigs == [] then Ok([])
    else
      match ParseLineSearch(lines, sigs[0])
      case Err(e) => Err(e)
      case Ok(v) => Prepend([v], ReadSearch(lines, sigs[1..]))
  }

  /** What `from_str` returns for the contents of the file. */
  function ParseMemInfoSearch(s: string): Result<MemInfo, FieldError> {
    match ReadSearch(Lines(s), Signatures)
    case Err(e) => Err(e)
    case Ok(v) => Ok(OfFields(v))
  }

  /** All fields read when every signature's line is found and parses; value `i` is
      the number on the line found for signature `i`. */
  lemma {:induction false} ReadSearchOk(lines: seq<string>, sigs: seq<string>)
    ensures ReadSearch(lines, sigs).Ok? <==> forall i :: 0 <= i < |sigs| ==> ParseLineSearch(lines, sigs[i]).Ok?
    ensures ReadSearch(lines, sigs).Ok? ==>
      forall i :: 0 <= i < |sigs| ==> ParseLineSearch(lines, sigs[i]) == Ok(ReadSearch(lines, sigs).value[i])
    decreases |sigs|
  {
    if sigs != [] {
      var first := ParseLineSearch(lines, sigs[0]);
      if first.Ok? {
        var rest := sigs[1..];
        ReadSearchOk(lines, rest);
        assert ReadSearch(lines, sigs) == Prepend([first.value], ReadSearch(lines, rest));
        forall i | 1 <= i < |sigs| ensures ParseLineSearch(lines, sigs[i]) == ParseLineSearch(lines, rest[i - 1]) {
          assert rest[i - 1] == sigs[i];
        }
      }
    }
  }

  /** A found line whose number is glued to the signature ("MemTotal:5") has a first
      word other than the signature, so the entry counts as not found. */
  lemma GluedValueNotFound(lines: seq<string>, sig: string, rest: string)
    requires sig != [] && !HasWhitespace(sig) && rest != [] && !HasWhitespace(rest)
    requires FindLine(lines, sig) == Some(sig + rest)
    ensures ParseLineSearch(lines, sig) == Err(EntryNotFound(sig))
  {
    assert !HasWhitespace(sig + rest) by {
      forall i | 0 <= i < |sig + rest| ensures !IsAsciiWhitespace((sig + rest)[i]) {
        if i < |sig| {
          assert (sig + rest)[i] == sig[i];
        } else {
          assert (sig + rest)[i] == rest[i - |sig|];
        }
      }
    }
    WordsOfWord(sig + rest, "");
    assert sig + rest + "" == sig + rest;
    assert |sig + rest| != |sig|;
  }

  /** The first signature whose line is missing or does not parse names the error. */
  lemma {:induction false} ReadSearchFirstFailure(lines: seq<string>, sigs: seq<string>, i: nat)
    requires i < |sigs| && ParseLineSearch(lines, sigs[i]).Err?
    requires forall j :: 0 <= j < i ==> ParseLineSearch(lines, sigs[j]).Ok?
    ensures ReadSearch(lines, sigs) == Err(ParseLineSearch(lines, sigs[i]).error)
    decreases i
  {
    if i > 0 {
      assert ParseLineSearch(lines, sigs[0]).Ok?;
      forall j | 0 <= j < i - 1 ensures ParseLineSearch(lines, sigs[1..][j]).Ok? {
        assert sigs[1..][j] == sigs[j + 1];
      }
      assert sigs[1..][i - 1] == sigs[i];
      ReadSearchFirstFailure(lines, sigs[1..], i - 1);
    }
  }

  // ---------------------------------------------------------------------------
  // unknown lines and line order

  /** A line that starts with no signature can be inserted anywhere. */
  lemma {:induction false} FindLineSkips(a: seq<string>, u: string, b: seq<string>, sig: string)
    requires !StartsWith(u, sig)
    ensures FindLine(a + [u] + b, sig) == FindLine(a + b, sig)
    decreases |a|
  {
    if a == [] {
      assert a + [u] + b == [u] + b && ([u] + b)[1..] == b && a + b == b;
    } else {
      assert (a + [u] + b)[0] == a[0] && (a + b)[0] == a[0];
      assert (a + [u] + b)[1..] == a[1..] + [u] + b;
      assert (a + b)[1..] == a[1..] + b;
      FindLineSkips(a[1..], u, b, sig);
    }
  }

  /** Lines that carry none of the signatures do not change the result, wherever they
      are. */
  lemma {:induction false} ReadSearchIgnoresUnknown(a: seq<string>, u: string, b: seq<string>, sigs: seq<string>)
    requires forall k :: 0 <= k < |sigs| ==> !StartsWith(u, sigs[k])
    ensures ReadSearch(a + [u] + b, sigs) == ReadSearch(a + b, sigs)
    decreases |sigs|
  {
    if sigs != [] {
      FindLineSkips(a, u, b, sigs[0]);
      ReadSearchIgnoresUnknown(a, u, b, sigs[1..]);
    }
  }

  /** At most one distinct line starts with `sig`. */
  predicate Unique(lines: seq<string>, sig: string) {
    forall i, j :: 0 <= i < |lines| && 0 <= j < |lines| && StartsWith(lines[i], sig) && StartsWith(lines[j], sig) ==>
      lines[i] == lines[j]
  }

  /** With a unique line for `sig`, the search finds exactly that line. */
  lemma FindUnique(lines: seq<string>, sig: string, l: string)
    requires Unique(lines, sig) && l in lines && StartsWith(l, sig)
    ensures FindLine(lines, sig) == Some(l)
  {
    var k :| 0 <= k < |lines| && lines[k] == l;
    var r := FindLine(lines, sig);
    var i :| 0 <= i < |lines| && lines[i] == r.value && FirstStarting(lines, sig, i);
  }

  /** When each signature starts at most one distinct line, reordering the lines does
      not change the result. */
  lemma {:induction false} ReadSearchReordered(lines: seq<string>, lines2: seq<string>, sigs: seq<string>)
    requires multiset(lines) == multiset(lines2)
    requires forall k :: 0 <= k < |sigs| ==> Unique(lines, sigs[k])
    ensures ReadSearch(lines, sigs) == ReadSearch(lines2, sigs)
    decreases |sigs|
  {
    if sigs != [] {
      var sig := sigs[0];
      assert Unique(lines, sig);
      assert forall l :: l in lines <==> l in lines2 by {
        forall l ensures l in lines <==> l in lines2 {
          assert l in lines <==> l in multiset(lines);
          assert l in lines2 <==> l in multiset(lines2);
        }
      }
      assert Unique(lines2, sig) by {
        forall i, j | 0 <= i < |lines2| && 0 <= j < |lines2| && StartsWith(lines2[i], sig) && StartsWith(lines2[j], sig)
          ensures lines2[i] == lines2[j]
        {
          assert lines2[i] in lines && lines2[j] in lines;
        }
      }
      if FindLine(lines, sig).Some? {
        var l := FindLine(lines, sig).value;
        var i :| 0 <= i < |lines| && lines[i] == l && FirstStarting(lines, sig, i);
        FindUnique(lines2, sig, l);
      } else {
        forall i | 0 <= i < |lines2| ensures !StartsWith(lines2[i], sig) {
          assert lines2[i] in lines;
        }
      }
      assert forall k :: 0 <= k < |sigs| - 1 ==> sigs[1..][k] == sigs[k + 1];
      ReadSearchReordered(lines, lines2, sigs[1..]);
    }
  }

  // ---------------------------------------------------------------------------
  // agreement with the sequential reader

  /** A signature ends with its only ':'. */
  predicate ColonTerminated(sig: string) {
    |sig| > 0 && sig[|sig| - 1] == ':' && forall i :: 0 <= i < |sig| - 1 ==> sig[i] != ':'
  }

  /** No line starts with two different colon-terminated signatures. */
  lemma OneSignaturePerLine(l: string, a: string, b: string)
    requires ColonTerminated(a) && ColonTerminated(b)
    requires StartsWith(l, a) && StartsWith(l, b)
    ensures a == b
  {
    assert forall i :: 0 <= i < |a| ==> l[i] == a[i];
    assert forall i :: 0 <= i < |b| ==> l[i] == b[i];
    assert |a| == |b|;
  }

  /** Every signature ends with its only ':' and no two are the same. */
  predicate WellFormedSignatures(sigs: seq<string>) {
    && (forall k :: 0 <= k < |sigs| ==> ColonTerminated(sigs[k]))
    && (forall j, k :: 0 <= j < k < |sigs| ==> sigs[j] != sigs[k])
  }

  /** Lines in the sequential order, line `k` starting with signature `k`. */
  predicate InOrder(lines: seq<string>, sigs: seq<string>) {
    |sigs| <= |lines| && forall k :: 0 <= k < |sigs| ==> StartsWith(lines[k], sigs[k])
  }

  /** On lines in the sequential order the search reads signature `k` from line `k`,
      so from signature `k` on both readers give the same result. */
  lemma {:induction false} AgreesFrom(lines: seq<string>, sigs: seq<string>, k: nat)
    requires WellFormedSignatures(sigs) && InOrder(lines, sigs) && k <= |sigs|
    ensures ReadSearch(lines, sigs[k..]) == ReadLines(lines[k..], sigs[k..])
    decreases |sigs| - k
  {
    if k < |sigs| {
      var sig := sigs[k];
      assert FirstStarting(lines, sig, k) by {
        forall j | 0 <= j < k ensures !StartsWith(lines[j], sig) {
          if StartsWith(lines[j], sig) {
            OneSignaturePerLine(lines[j], sigs[j], sig);
          }
        }
      }
      var r := FindLine(lines, sig);
      var i :| 0 <= i < |lines| && lines[i] == r.value && FirstStarting(lines, sig, i);
      assert i == k;
      assert sigs[k..][0] == sig && lines[k..][0] == lines[k];
      assert sigs[k..][1..] == sigs[k + 1..] && lines[k..][1..] == lines[k + 1..];
      AgreesFrom(lines, sigs, k + 1);
    }
  }

  /** Length and fourth-last character: different for any two signatures of `MemInfo`. */
  function Key(s: string): int {
    if |s| < 4 then 0 else |s| * 0x11_0000 + s[|s| - 4] as int
  }

  /** Each of the first nine signatures of `MemInfo` ends with its only ':'. */
  lemma SignaturesColonTerminatedLow()
    ensures forall k :: 0 <= k < 9 ==> ColonTerminated(Signatures[k])
  {
  }

  /** Each of the last nine signatures of `MemInfo` ends with its only ':'. */
  lemma SignaturesColonTerminatedHigh()
    ensures forall k :: 9 <= k < |Signatures| ==> ColonTerminated(Signatures[k])
  {
  }

  /** No two signatures of `MemInfo` have the same key, the first nine against all. */
  lemma SignatureKeysDistinctLow()
    ensures forall j, k :: 0 <= j < 9 && j < k < |Signatures| ==> Key(Signatures[j]) != Key(Signatures[k])
  {
  }

  /** No two signatures of `MemInfo` have the same key, the last nine among themselves. */
  lemma SignatureKeysDistinctHigh()
    ensures forall j, k :: 9 <= j < k < |Signatures| ==> Key(Signatures[j]) != Key(Signatures[k])
  {
  }

  /** The signatures of `MemInfo` are well formed. */
  lemma SignaturesWellFormed()
    ensures WellFormedSignatures(Signatures)
  {
    SignaturesColonTerminatedLow();
    SignaturesColonTerminatedHigh();
    SignatureKeysDistinctLow();
    SignatureKeysDistinctHigh();
  }

  /** On contents whose first eighteen lines start with the eighteen signatures in
      order, both versions of `from_str` give the same result, errors included. */
  lemma SearchAgreesWithSequential(s: string)
    requires InOrder(Lines(s), Signatures)
    ensures ParseMemInfoSearch(s) == ParseMemInfo(s)
  {
    SignaturesWellFormed();
    AgreesFrom(Lines(s), Signatures, 0);
    assert Lines(s)[0..] == Lines(s) && Signatures[0..] == Signatures;
  }
}
