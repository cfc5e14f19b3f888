/** Shared vocabulary: optional values and results, bytes, and the few string
    operations of Go's standard library that the modelled code relies on
    (decimal formatting, strings.Split / strings.Join, strings.TrimSpace,
    strings.HasPrefix, strings.ContainsAny, strconv.Atoi). */
module Common {

  datatype Option<+T> = None | Some(value: T)

  datatype Result<+T, +E> = Ok(value: T) | Err(error: E)

  newtype byte = x: int | 0 <= x < 256

  /** Go's `url.JoinPath(base, elems...)`; None when the base does not parse. */
  type UrlJoin = (string, seq<string>) -> Option<string>

  /** Go's `path.Join(elems...)`. */
  type PathJoin = seq<string> -> string

  // ---------------------------------------------------------------------
  // Decimal numbers
  // ---------------------------------------------------------------------

  predicate IsDigit(c: char) {
    '0' <= c <= '9'
  }

  predicate AllDigits(s: string) {
    forall i :: 0 <= i < |s| ==> IsDigit(s[i])
  }

  function DigitChar(d: nat): (c: char)
    requires d < 10
    ensures IsDigit(c)
  {
    ('0' as int + d) as char
  }

  function DigitValue(c: char): (d: nat)
    requires IsDigit(c)
    ensures d < 10 && DigitChar(d) == c
  {
    c as int - '0' as int
  }

  /** The decimal text of `n` without leading zeros (Go's `%d`,
      `strconv.FormatInt(n, 10)` on a non-negative value). */
  function Decimal(n: nat): (s: string)
    ensures 1 <= |s|
    decreases n
  {
    if n < 10 then [DigitChar(n)] else Decimal(n / 10) + [DigitChar(n % 10)]
  }

  /** The text is made of digits, a single one exactly for the numbers below
      ten. */
  lemma {:induction false} DecimalDigits(n: nat)
    ensures AllDigits(Decimal(n))
    ensures n < 10 <==> |Decimal(n)| == 1
    decreases n
  {
    if n >= 10 {
      DecimalDigits(n / 10);
    }
  }

  /** The number a string of digits denotes, leading zeros included. */
  function DecimalValue(s: string): nat
    requires AllDigits(s)
    decreases |s|
  {
    if s == [] then 0 else 10 * DecimalValue(s[..|s| - 1]) + DigitValue(s[|s| - 1])
  }

  lemma {:induction false} DecimalRoundTrip(n: nat)
    ensures AllDigits(Decimal(n)) && DecimalValue(Decimal(n)) == n
  {
    DecimalDigits(n);
    if n >= 10 {
      var s := Decimal(n);
      assert s[..|s| - 1] == Decimal(n / 10);
      DecimalRoundTrip(n / 10);
    }
  }

  /** `s` left-padded with '0' to at least `width` characters (the `0` flag
      and width of a Go format verb such as `%05d`). */
  function ZeroPad(s: string, width: nat): (r: string)
    ensures |r| == if |s| < width then width else |s|
    decreases width - |s|
  {
    if |s| < width then ZeroPad(['0'] + s, width) else s
  }

  /** Padding only prepends zeros. */
  lemma {:induction false} ZeroPadPrependsZeros(s: string, width: nat)
    ensures var r := ZeroPad(s, width);
      r[|r| - |s|..] == s && forall i :: 0 <= i < |r| - |s| ==> r[i] == '0'
    decreases width - |s|
  {
    if |s| < width {
      var t := ['0'] + s;
      ZeroPadPrependsZeros(t, width);
      var r := ZeroPad(s, width);
      assert r[|r| - |t|..] == t;
      assert r[|r| - |s|..] == t[1..];
      forall i | 0 <= i < |r| - |s|
        ensures r[i] == '0'
      {
        if i == |r| - |t| {
          assert r[i] == t[0];
        }
      }
    }
  }

  /** Go's `fmt.Sprintf("%0*d", width, n)` for a non-negative `n`. */
  function PaddedDecimal(n: nat, width: nat): string {
    ZeroPad(Decimal(n), width)
  }

  lemma {:induction false} LeadingZerosValue(zeros: string, s: string)
    requires forall i :: 0 <= i < |zeros| ==> zeros[i] == '0'
    requires AllDigits(s)
    ensures AllDigits(zeros + s)
    ensures DecimalValue(zeros + s) == DecimalValue(s)
    decreases |s|
  {
    if s == [] {
      assert zeros + s == zeros;
      AllZerosValue(zeros);
    } else {
      var t := zeros + s;
      assert t[..|t| - 1] == zeros + s[..|s| - 1];
      LeadingZerosValue(zeros, s[..|s| - 1]);
    }
  }

  lemma {:induction false} AllZerosValue(zeros: string)
    requires forall i :: 0 <= i < |zeros| ==> zeros[i] == '0'
    ensures AllDigits(zeros) && DecimalValue(zeros) == 0
    decreases |zeros|
  {
    if zeros != [] {
      AllZerosValue(zeros[..|zeros| - 1]);
    }
  }

  /** Zero padding never changes the number a decimal denotes, so padded
      decimals can be read back; in particular distinct numbers get distinct
      padded texts. */
  lemma PaddedDecimalRoundTrip(n: nat, width: nat)
    ensures AllDigits(PaddedDecimal(n, width))
    ensures DecimalValue(PaddedDecimal(n, width)) == n
  {
    var s := Decimal(n);
    var r := ZeroPad(s, width);
    DecimalDigits(n);
    ZeroPadPrependsZeros(s, width);
    var zeros := r[..|r| - |s|];
    assert forall i :: 0 <= i < |zeros| ==> zeros[i] == '0';
    assert r == zeros + r[|r| - |s|..];
    LeadingZerosValue(zeros, s);
    DecimalRoundTrip(n);
  }

  lemma PaddedDecimalInjective(m: nat, n: nat, width: nat)
    requires PaddedDecimal(m, width) == PaddedDecimal(n, width)
    ensures m == n
  {
    PaddedDecimalRoundTrip(m, width);
    PaddedDecimalRoundTrip(n, width);
  }

  /** The text after one optional leading sign character. */
  function Unsigned(s: string): string {
    if s != [] && (s[0] == '-' || s[0] == '+') then s[1..] else s
  }

  /** 2^63: `int64` holds the values from -Int64Bound to Int64Bound - 1. */
  const Int64Bound: int := 0x8000_0000_0000_0000

  /** Go's `strconv.Atoi` on a 64-bit platform: an optional sign followed by
      at least one decimal digit, the value within the range of `int64`. */
  function Atoi(s: string): (r: Option<int>)
    ensures r.Some? <==>
      && Unsigned(s) != [] && AllDigits(Unsigned(s))
      && (if s[0] == '-' then DecimalValue(Unsigned(s)) <= Int64Bound else DecimalValue(Unsigned(s)) < Int64Bound)
    ensures r.Some? ==> r.value == if s[0] == '-' then -(DecimalValue(Unsigned(s)) as int) else DecimalValue(Unsigned(s))
    ensures r.Some? ==> -Int64Bound <= r.value < Int64Bound
  {
    var negative := s != [] && s[0] == '-';
    var digits := Unsigned(s);
    if digits == [] || !AllDigits(digits) then None
    else
      var v: int := if negative then -(DecimalValue(digits) as int) else DecimalValue(digits);
      if -Int64Bound <= v < Int64Bound then Some(v) else None
  }

  /** `strconv.FormatInt(n, 10)`: a '-' before the digits of a negative
      number. */
  function FormatInt(n: int): string {
    if n < 0 then "-" + Decimal(-n) else Decimal(n)
  }

  /** Every `int64` survives formatting and parsing back, with or without an
      explicit '+' in front of a non-negative number. */
  lemma AtoiFormatInt(n: int)
    requires -Int64Bound <= n < Int64Bound
    ensures Atoi(FormatInt(n)) == Some(n)
    ensures n >= 0 ==> Atoi("+" + FormatInt(n)) == Some(n)
  {
    if n < 0 {
      var text := "-" + Decimal(-n);
      DecimalRoundTrip(-n);
      assert text[0] == '-' && Unsigned(text) == Decimal(-n);
      assert Atoi(text) == Some(n);
    } else {
      var text := Decimal(n);
      DecimalRoundTrip(n);
      DecimalDigitsStart(n);
      assert text[0] != '-' && Unsigned(text) == text;
      assert Atoi(text) == Some(n);
      var signed := "+" + text;
      assert signed[0] == '+' && Unsigned(signed) == text;
      assert Atoi(signed) == Some(n);
    }
  }

  /** A decimal text starts with a digit, never with a sign. */
  lemma DecimalDigitsStart(n: nat)
    ensures IsDigit(Decimal(n)[0])
  {
    DecimalDigits(n);
  }

  // ---------------------------------------------------------------------
  // strings.Split / strings.Join with a one-character separator
  // ---------------------------------------------------------------------

  function Count(s: string, c: char): nat
    decreases |s|
  {
    if s == [] then 0 else (if s[0] == c then 1 else 0) + Count(s[1..], c)
  }

  /** `strings.Split(s, string(sep))`: the pieces between separators, so the
      empty string splits into one empty piece. */
  function Split(s: string, sep: char): (parts: seq<string>)
    ensures |parts| == Count(s, sep) + 1
    decreases |s|
  {
    if s == [] then [""]
    else
      var rest := Split(s[1..], sep);
      if s[0] == sep then [""] + rest else [[s[0]] + rest[0]] + rest[1..]
  }

  /** `strings.Join(parts, sep)`. */
  function Join(parts: seq<string>, sep: string): string
    decreases |parts|
  {
    if parts == [] then ""
    else if |parts| == 1 then parts[0]
    else parts[0] + sep + Join(parts[1..], sep)
  }

  /** Two separators in a row delimit an empty part (never the first one). */
  lemma {:induction false} DoubledSeparatorSplitsEmpty(s: string, sep: char, i: nat)
    requires i + 1 < |s| && s[i] == sep && s[i + 1] == sep
    ensures "" in Split(s, sep)[1..]
    decreases i
  {
    var rest := Split(s[1..], sep);
    if i == 0 {
      assert rest == [""] + Split(s[2..], sep);
      assert Split(s, sep)[1] == "";
    } else {
      DoubledSeparatorSplitsEmpty(s[1..], sep, i - 1);
      var k :| 0 <= k < |rest[1..]| && rest[1..][k] == "";
      if s[0] == sep {
        assert Split(s, sep)[1..][k + 1] == "";
      } else {
        assert Split(s, sep)[1..][k] == "";
      }
    }
  }

  lemma {:induction false} SplitWithoutSeparator(a: string, sep: char)
    requires sep !in a
    ensures Split(a, sep) == [a]
    decreases |a|
  {
    if a != [] {
      SplitWithoutSeparator(a[1..], sep);
      assert [a[0]] + a[1..] == a;
    }
  }

  lemma {:induction false} SplitAtSeparator(a: string, b: string, sep: char)
    requires sep !in a
    ensures Split(a + [sep] + b, sep) == [a] + Split(b, sep)
    decreases |a|
  {
    var s := a + [sep] + b;
    if a == [] {
      assert s[1..] == b;
    } else {
      assert s[0] == a[0] && s[1..] == a[1..] + [sep] + b;
      SplitAtSeparator(a[1..], b, sep);
      var rest := Split(s[1..], sep);
      assert rest[0] == a[1..] && rest[1..] == Split(b, sep);
      assert [a[0]] + a[1..] == a;
    }
  }

  /** Splitting undoes joining, as long as no piece contains the separator
      and there is at least one piece. */
  lemma {:induction false} SplitJoin(parts: seq<string>, sep: char)
    requires |parts| >= 1
    requires forall i :: 0 <= i < |parts| ==> sep !in parts[i]
    ensures Split(Join(parts, [sep]), sep) == parts
    decreases |parts|
  {
    if |parts| == 1 {
      SplitWithoutSeparator(parts[0], sep);
    } else {
      SplitJoin(parts[1..], sep);
      SplitAtSeparator(parts[0], Join(parts[1..], [sep]), sep);
      assert [parts[0]] + parts[1..] == parts;
    }
  }

  /** Joining undoes splitting. */
  lemma {:induction false} JoinSplit(s: string, sep: char)
    ensures Join(Split(s, sep), [sep]) == s
    decreases |s|
  {
    if s != [] {
      JoinSplit(s[1..], sep);
      var rest := Split(s[1..], sep);
      if s[0] == sep {
        assert [""] + rest == Split(s, sep);
        assert ([""] + rest)[1..] == rest;
      } else {
        var parts := Split(s, sep);
        assert parts[1..] == rest[1..];
        if |rest| > 1 {
          assert Join(rest, [sep]) == rest[0] + [sep] + Join(rest[1..], [sep]);
        }
      }
    }
  }

  // ---------------------------------------------------------------------
  // Predicates on strings
  // ---------------------------------------------------------------------

  /** `strings.HasPrefix(s, prefix)`. */
  predicate HasPrefix(s: string, prefix: string) {
    |prefix| <= |s| && s[..|prefix|] == prefix
  }

  /** `strings.ContainsAny(s, chars)`. */
  predicate ContainsAny(s: string, chars: set<char>) {
    exists i :: 0 <= i < |s| && s[i] in chars
  }

  /** Joining pieces and a separator that avoid a set of characters gives a
      string that avoids them too. */
  lemma {:induction false} JoinAvoids(parts: seq<string>, sep: string, chars: set<char>)
    requires forall i :: 0 <= i < |parts| ==> !ContainsAny(parts[i], chars)
    requires !ContainsAny(sep, chars)
    ensures !ContainsAny(Join(parts, sep), chars)
    decreases |parts|
  {
    if |parts| > 1 {
      JoinAvoids(parts[1..], sep, chars);
      var rest := Join(parts[1..], sep);
      var s := parts[0] + sep + rest;
      forall i | 0 <= i < |s|
        ensures s[i] !in chars
      {
        if i < |parts[0]| {
          assert s[i] == parts[0][i];
        } else if i < |parts[0]| + |sep| {
          assert s[i] == sep[i - |parts[0]|];
        } else {
          assert s[i] == rest[i - |parts[0]| - |sep|];
        }
      }
    }
  }

  /** Joining pieces and a separator that avoid a character gives a string
      that avoids it too. */
  lemma {:induction false} JoinAvoidsChar(parts: seq<string>, sep: string, c: char)
    requires forall i :: 0 <= i < |parts| ==> c !in parts[i]
    requires c !in sep
    ensures c !in Join(parts, sep)
    decreases |parts|
  {
    if |parts| > 1 {
      JoinAvoidsChar(parts[1..], sep, c);
    }
  }

  /** `strings.ToLower(s) == [c]` for an ASCII lower-case letter `c`: only `c`
      and its upper-case form fold to it. */
  predicate IsAnswer(s: string, c: char)
    requires 'a' <= c <= 'z'
  {
    s == [c] || s == [(c as int - 32) as char]
  }

  // ---------------------------------------------------------------------
  // strings.TrimSpace
  // ---------------------------------------------------------------------

  /** Go's `unicode.IsSpace`. */
  predicate IsSpace(c: char) {
    c in SpaceChars
  }

  /** The white space of Unicode's White_Space property. */
  const SpaceChars: set<char> := {
    ' ', '\t', '\n', '\U{000B}', '\U{000C}', '\r', '\U{0085}', '\U{00A0}', '\U{1680}',
    '\U{2000}', '\U{2001}', '\U{2002}', '\U{2003}', '\U{2004}', '\U{2005}', '\U{2006}',
    '\U{2007}', '\U{2008}', '\U{2009}', '\U{200A}',
    '\U{2028}', '\U{2029}', '\U{202F}', '\U{205F}', '\U{3000}'
  }

  predicate AllSpace(s: string) {
    forall i :: 0 <= i < |s| ==> IsSpace(s[i])
  }

  lemma AllSpaceCons(c: char, s: string)
    requires IsSpace(c) && AllSpace(s)
    ensures AllSpace([c] + s)
  {
    forall i | 0 <= i < |s| + 1
      ensures IsSpace(([c] + s)[i])
    {
      if i > 0 {
        assert ([c] + s)[i] == s[i - 1];
      }
    }
  }

  function TrimLeft(s: string): (r: string)
    ensures |r| <= |s| && s[|s| - |r|..] == r
    ensures AllSpace(s[..|s| - |r|])
    ensures r == [] || !IsSpace(r[0])
    decreases |s|
  {
    if s != [] && IsSpace(s[0]) then
      var r := TrimLeft(s[1..]);
      assert s[|s| - |r|..] == s[1..][|s| - 1 - |r|..];
      assert s[..|s| - |r|] == [s[0]] + s[1..][..|s| - 1 - |r|];
      AllSpaceCons(s[0], s[1..][..|s| - 1 - |r|]);
      r
    else s
  }

  function TrimRight(s: string): (r: string)
    ensures |r| <= |s| && s[..|r|] == r
    ensures AllSpace(s[|r|..])
    ensures r == [] || !IsSpace(r[|r| - 1])
    decreases |s|
  {
    if s != [] && IsSpace(s[|s| - 1]) then
      var r := TrimRight(s[..|s| - 1]);
      assert s[|r|..] == s[..|s| - 1][|r|..] + [s[|s| - 1]];
      r
    else s
  }

  /** `strings.TrimSpace(s)`: `s` without its leading and trailing white space. */
  function TrimSpace(s: string): (r: string)
    ensures |r| <= |s|
    ensures r == [] || (!IsSpace(r[0]) && !IsSpace(r[|r| - 1]))
  {
    TrimRight(TrimLeft(s))
  }

  /** `r` sits in `s` at position `i` with only white space around it. */
  predicate SurroundedBySpace(s: string, r: string, i: int) {
    0 <= i <= |s| - |r| && s[i..i + |r|] == r && AllSpace(s[..i]) && AllSpace(s[i + |r|..])
  }

  /** A prefix `r` of the suffix `l` of `s`, with only white space before
      `l` and after `r`, sits in `s` with white space around it. */
  lemma SuffixPrefix(s: string, l: string, r: string)
    requires |l| <= |s| && s[|s| - |l|..] == l && AllSpace(s[..|s| - |l|])
    requires |r| <= |l| && l[..|r|] == r && AllSpace(l[|r|..])
    ensures SurroundedBySpace(s, r, |s| - |l|)
  {
    var i := |s| - |l|;
    assert s[i..i + |r|] == l[..|r|];
    assert s[i + |r|..] == l[|r|..];
  }

  lemma TrimSpaceSlice(s: string)
    ensures exists i :: SurroundedBySpace(s, TrimSpace(s), i)
  {
    var l := TrimLeft(s);
    var r := TrimRight(l);
    SuffixPrefix(s, l, r);
    assert TrimSpace(s) == r;
  }
}
