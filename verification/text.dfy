/** The Rust standard-library string operations the core relies on, with the exact
    edge cases of `str::split`, `str::lines`, `str::split_ascii_whitespace`,
    `str::parse` for integers and integer formatting. */
module Text {
  import opened Wrappers

  // ---------------------------------------------------------------------------
  // split / join

  /** `s.split(c)`: always at least one part; `k` separators give `k + 1` parts,
      empty parts included. */
  function Split(s: string, c: char): (parts: seq<string>)
    ensures |parts| >= 1
    ensures forall i :: 0 <= i < |parts| ==> c !in parts[i]
    decreases |s|
  {
    if s == [] then [""]
    else if s[0] == c then [""] + Split(s[1..], c)
    else
      var rest := Split(s[1..], c);
      [[s[0]] + rest[0]] + rest[1..]
  }

  /** `parts.join(sep)`. */
  function Join(parts: seq<string>, sep: string): string
    decreases |parts|
  {
    if parts == [] then ""
    else if |parts| == 1 then parts[0]
    else parts[0] + sep + Join(parts[1..], sep)
  }

  /** Number of occurrences of `c` in `s`. */
  function Count(s: string, c: char): nat
    decreases |s|
  {
    if s == [] then 0 else (if s[0] == c then 1 else 0) + Count(s[1..], c)
  }

  /** Splitting yields one more part than there are separators. */
  lemma {:induction false} SplitCount(s: string, c: char)
    ensures |Split(s, c)| == Count(s, c) + 1
    decreases |s|
  {
    if s != [] {
      SplitCount(s[1..], c);
    }
  }

  /** Joining the parts with the separator gives back the string. */
  lemma {:induction false} JoinSplit(s: string, c: char)
    ensures Join(Split(s, c), [c]) == s
    decreases |s|
  {
    if s != [] {
      var rest := Split(s[1..], c);
      JoinSplit(s[1..], c);
      if s[0] == c {
        JoinCons("", rest, [c]);
        assert s == [c] + s[1..];
      } else {
        JoinExtendFirst([s[0]], rest, [c]);
        assert s == [s[0]] + s[1..];
      }
    }
  }

  /** A part in front of the others is followed by the separator. */
  lemma JoinCons(p: string, rest: seq<string>, sep: string)
    requires rest != []
    ensures Join([p] + rest, sep) == p + sep + Join(rest, sep)
  {
    assert ([p] + rest)[1..] == rest;
  }

  /** Extending the first part extends the joined string at the front. */
  lemma JoinExtendFirst(x: string, rest: seq<string>, sep: string)
    requires rest != []
    ensures Join([x + rest[0]] + rest[1..], sep) == x + Join(rest, sep)
  {
    var parts := [x + rest[0]] + rest[1..];
    if |rest| > 1 {
      assert parts[1..] == rest[1..];
      assert x + rest[0] + sep + Join(rest[1..], sep) == x + (rest[0] + sep + Join(rest[1..], sep));
    }
  }

  lemma {:induction false} SplitPrefix(p: string, c: char, rest: string)
    requires c !in p
    ensures Split(p + [c] + rest, c) == [p] + Split(rest, c)
    decreases |p|
  {
    if p == [] {
      assert p + [c] + rest == [c] + rest;
      assert ([c] + rest)[1..] == rest;
    } else {
      SplitPrefix(p[1..], c, rest);
      assert (p + [c] + rest)[1..] == p[1..] + [c] + rest;
      assert [p[0]] + p[1..] == p;
    }
  }

  /** Splitting a join of separator-free parts gives back the parts. */
  lemma {:induction false} SplitJoin(parts: seq<string>, c: char)
    requires |parts| >= 1
    requires forall i :: 0 <= i < |parts| ==> c !in parts[i]
    ensures Split(Join(parts, [c]), c) == parts
    decreases |parts|
  {
    if |parts| == 1 {
      SplitNoSep(parts[0], c);
    } else {
      SplitJoin(parts[1..], c);
      SplitPrefix(parts[0], c, Join(parts[1..], [c]));
      assert parts == [parts[0]] + parts[1..];
    }
  }

  lemma {:induction false} SplitNoSep(s: string, c: char)
    requires c !in s
    ensures Split(s, c) == [s]
    decreases |s|
  {
    if s != [] {
      SplitNoSep(s[1..], c);
      assert [s[0]] + s[1..] == s;
    }
  }

  /** `split(c).filter(|s| !s.is_empty())`. */
  function NonEmpty(parts: seq<string>): (r: seq<string>)
    ensures forall i :: 0 <= i < |r| ==> r[i] != ""
  {
    if parts == [] then []
    else if parts[0] == "" then NonEmpty(parts[1..])
    else [parts[0]] + NonEmpty(parts[1..])
  }

  // ---------------------------------------------------------------------------
  // lines

  /** Index of the first `c` in `s`. */
  function IndexOf(s: string, c: char): (i: nat)
    requires c in s
    ensures i < |s| && s[i] == c && c !in s[..i]
  {
    if s[0] == c then 0 else 1 + IndexOf(s[1..], c)
  }

  /** A line ended by "\r\n" loses its '\r'. */
  function StripCR(line: string): string {
    if line != [] && line[|line| - 1] == '\r' then line[..|line| - 1] else line
  }

  /** `s.lines()`: lines end at '\n' (a '\r' just before it is dropped); the final line
      ending is optional; an empty string has no lines. */
  function Lines(s: string): (ls: seq<string>)
    ensures s != [] ==> |ls| >= 1
    ensures forall i :: 0 <= i < |ls| ==> '\n' !in ls[i]
    decreases |s|
  {
    if s == [] then []
    else if '\n' !in s then [s]
    else
      var i := IndexOf(s, '\n');
      [StripCR(s[..i])] + Lines(s[i + 1..])
  }

  /** The lines of a text written as `l1 + "\n" + l2 + "\n" + ...` are the `li`. */
  lemma {:induction false} LinesOfJoin(ls: seq<string>)
    requires forall i :: 0 <= i < |ls| ==> '\n' !in ls[i] && (ls[i] == [] || ls[i][|ls[i]| - 1] != '\r')
    ensures Lines(JoinLines(ls)) == ls
    decreases |ls|
  {
    if ls != [] {
      var s := JoinLines(ls);
      LinesOfJoin(ls[1..]);
      assert s == ls[0] + "\n" + JoinLines(ls[1..]);
      assert s[|ls[0]|] == '\n';
      assert s[..|ls[0]|] == ls[0];
      assert '\n' in s;
      var i := IndexOf(s, '\n');
      assert ls[0][..i] == s[..i];
      assert i == |ls[0]|;
      assert s[i + 1..] == JoinLines(ls[1..]);
    }
  }

  /** Every line followed by "\n". */
  function JoinLines(ls: seq<string>): string
    decreases |ls|
  {
    if ls == [] then "" else ls[0] + "\n" + JoinLines(ls[1..])
  }

  // ---------------------------------------------------------------------------
  // split_ascii_whitespace

  /** `u8::is_ascii_whitespace`: space, tab, line feed, form feed, carriage return
      (not the vertical tab). */
  predicate IsAsciiWhitespace(c: char) {
    c == ' ' || c == '\t' || c == '\n' || c == '\U{000C}' || c == '\r'
  }

  predicate HasWhitespace(s: string) {
    exists i :: 0 <= i < |s| && IsAsciiWhitespace(s[i])
  }

  /** Length of the leading run of non-whitespace characters. */
  function WordLength(s: string): (n: nat)
    ensures n <= |s|
    ensures forall i :: 0 <= i < n ==> !IsAsciiWhitespace(s[i])
    ensures n < |s| ==> IsAsciiWhitespace(s[n])
  {
    if s == [] || IsAsciiWhitespace(s[0]) then 0 else 1 + WordLength(s[1..])
  }

  /** `s.split_ascii_whitespace()`: the maximal runs of non-whitespace characters. */
  function Words(s: string): (ws: seq<string>)
    ensures forall i :: 0 <= i < |ws| ==> ws[i] != [] && !HasWhitespace(ws[i])
    decreases |s|
  {
    if s == [] then []
    else if IsAsciiWhitespace(s[0]) then Words(s[1..])
    else
      var n := WordLength(s);
      [s[..n]] + Words(s[n..])
  }

  /** Words separated by single spaces split back into the same words. */
  lemma {:induction false} WordsOfJoin(ws: seq<string>)
    requires forall i :: 0 <= i < |ws| ==> ws[i] != [] && !HasWhitespace(ws[i])
    ensures Words(Join(ws, " ")) == ws
    decreases |ws|
  {
    if |ws| == 1 {
      WordsOfWord(ws[0], "");
      assert ws[0] + "" == ws[0];
    } else if |ws| > 1 {
      var rest := Join(ws[1..], " ");
      WordsOfJoin(ws[1..]);
      WordsOfWord(ws[0], " " + rest);
      assert Words(" " + rest) == Words(rest);
      assert Join(ws, " ") == ws[0] + (" " + rest);
      assert ws == [ws[0]] + ws[1..];
    }
  }

  lemma {:induction false} WordsOfWord(w: string, tail: string)
    requires w != [] && !HasWhitespace(w)
    requires tail == [] || IsAsciiWhitespace(tail[0])
    ensures Words(w + tail) == [w] + Words(tail)
  {
    var s := w + tail;
    WordLengthOfWord(w, tail);
    assert s[..|w|] == w && s[|w|..] == tail;
  }

  lemma {:induction false} WordLengthOfWord(w: string, tail: string)
    requires !HasWhitespace(w)
    requires tail == [] || IsAsciiWhitespace(tail[0])
    ensures WordLength(w + tail) == |w|
    decreases |w|
  {
    if w != [] {
      assert !IsAsciiWhitespace(w[0]);
      assert !HasWhitespace(w[1..]) by {
        forall i | 0 <= i < |w[1..]| ensures !IsAsciiWhitespace(w[1..][i]) {
          assert w[1..][i] == w[i + 1];
        }
      }
      WordLengthOfWord(w[1..], tail);
      assert (w + tail)[1..] == w[1..] + tail;
    }
  }

  // ---------------------------------------------------------------------------
  // integer parsing (`str::parse::<i64>()` / `::<u64>()`, radix 10)

  /** The kinds of `ParseIntError`. */
  datatype IntErrorKind = Empty | InvalidDigit | PosOverflow | NegOverflow

  const I64_MIN: int := -0x8000_0000_0000_0000
  const I64_MAX: int := 0x7FFF_FFFF_FFFF_FFFF
  const U64_MAX: int := 0xFFFF_FFFF_FFFF_FFFF

  predicate IsDigit(c: char) { '0' <= c <= '9' }

  function DigitValue(c: char): int
    requires IsDigit(c)
  {
    (c as int) - ('0' as int)
  }

  /** The digit loop: left to right, each digit multiplies the accumulator by ten and
      adds (or, for a negative number, subtracts) the digit; the first non-digit or the
      first step outside [lo, hi] is the error. */
  function ScanDigits(ds: string, acc: int, positive: bool, lo: int, hi: int): (r: Result<int, IntErrorKind>)
    requires lo <= acc <= hi
    ensures r.Ok? ==> lo <= r.value <= hi
    ensures r.Err? ==> r.error != Empty
    decreases |ds|
  {
    if ds == [] then Ok(acc)
    else if !IsDigit(ds[0]) then Err(InvalidDigit)
    else
      var next := if positive then acc * 10 + DigitValue(ds[0]) else acc * 10 - DigitValue(ds[0]);
      if next > hi then Err(PosOverflow)
      else if next < lo then Err(NegOverflow)
      else ScanDigits(ds[1..], next, positive, lo, hi)
  }

  /** `from_str_radix(s, 10)` for a type with range [lo, hi]; a leading '-' is a sign only
      for signed types (for unsigned ones it is an invalid digit). */
  function ParseInt(s: string, lo: int, hi: int): (r: Result<int, IntErrorKind>)
    requires lo <= 0 <= hi
    ensures r.Ok? ==> lo <= r.value <= hi
    ensures r.Err? && r.error == Empty <==> s == []
  {
    if s == [] then Err(Empty)
    else if (s[0] == '+' || s[0] == '-') && |s| == 1 then Err(InvalidDigit)
    else if s[0] == '+' then ScanDigits(s[1..], 0, true, lo, hi)
    else if s[0] == '-' && lo < 0 then ScanDigits(s[1..], 0, false, lo, hi)
    else ScanDigits(s, 0, true, lo, hi)
  }

  function ParseI64(s: string): Result<int, IntErrorKind> {
    ParseInt(s, I64_MIN, I64_MAX)
  }

  function ParseU64(s: string): Result<int, IntErrorKind> {
    ParseInt(s, 0, U64_MAX)
  }

  // ---------------------------------------------------------------------------
  // integer formatting

  function DigitChar(d: nat): char
    requires d < 10
  {
    ((d + '0' as int) as char)
  }

  /** The decimal digits of `n`, most significant first, no leading zero. */
  function NatToString(n: nat): (s: string)
    ensures |s| >= 1
    ensures forall i :: 0 <= i < |s| ==> IsDigit(s[i])
    ensures |s| > 1 ==> s[0] != '0'
  {
    if n < 10 then [DigitChar(n)] else NatToString(n / 10) + [DigitChar(n % 10)]
  }

  /** Scanning a digit string appended to another continues from where the first stopped. */
  lemma {:induction false} ScanDigitsAppend(a: string, b: string, acc: int, lo: int, hi: int)
    requires lo <= acc <= hi
    requires ScanDigits(a, acc, true, lo, hi).Ok?
    ensures ScanDigits(a + b, acc, true, lo, hi) == ScanDigits(b, ScanDigits(a, acc, true, lo, hi).value, true, lo, hi)
    decreases |a|
  {
    if a == [] {
      assert a + b == b;
    } else {
      var next := acc * 10 + DigitValue(a[0]);
      assert (a + b)[0] == a[0] && (a + b)[1..] == a[1..] + b;
      ScanDigitsAppend(a[1..], b, next, lo, hi);
    }
  }

  /** Scanning the printed digits of `n` from zero yields `n`. */
  lemma {:induction false} ScanNatToString(n: nat, hi: int)
    requires n <= hi
    ensures ScanDigits(NatToString(n), 0, true, 0, hi) == Ok(n)
  {
    if n >= 10 {
      ScanNatToString(n / 10, hi);
      ScanDigitsAppend(NatToString(n / 10), [DigitChar(n % 10)], 0, 0, hi);
    }
  }

  /** Printing a `u64` and parsing it back gives the same number. */
  lemma ParsePrintedU64(n: nat)
    requires n <= U64_MAX
    ensures ParseU64(NatToString(n)) == Ok(n)
  {
    ScanNatToString(n, U64_MAX);
  }

  // ---------------------------------------------------------------------------
  // UTF-8

  /** Bytes taken by one character in UTF-8. */
  function Utf8Width(c: char): nat {
    if (c as int) < 0x80 then 1
    else if (c as int) < 0x800 then 2
    else if (c as int) < 0x1_0000 then 3
    else 4
  }

  /** `s.as_bytes().len()`. */
  function Utf8Length(s: string): (n: nat)
    ensures n >= |s|
  {
    if s == [] then 0 else Utf8Width(s[0]) + Utf8Length(s[1..])
  }

  predicate StartsWith(s: string, prefix: string) {
    |prefix| <= |s| && s[..|prefix|] == prefix
  }
}
