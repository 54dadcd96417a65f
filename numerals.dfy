/** Text helpers the loader borrows from Python: `str.split`, `str(int)`,
    `int(str)` and `int(float(str))`.

    `int(s)` is restricted to an optional sign followed by ASCII digits, and
    `float(s)` to an optional sign followed by a decimal literal with an
    optional fraction (`3`, `3.`, `.5`, `-2.1`). The loader truncates the float
    with `int` at once, and this model reads the literal as an exact decimal,
    so its value is the signed value of its integer part. Python goes through
    a binary double instead: the two agree while the integer part stays below
    2^53 and the literal carries no more than about 15 significant digits, but
    a literal such as `2.9999999999999999` rounds up to 3 there, and an
    integer part of 310 or more digits (or of 309 digits from about 1.8e308)
    becomes infinity, which `int` rejects.
 */
module Numerals {
  import opened Results

  // ---------------------------------------------------------------- split

  /** `s.split(sep)`: every occurrence of `sep` separates two parts. */
  function Split(s: string, sep: char): (parts: seq<string>)
    ensures |parts| >= 1
    ensures forall i :: 0 <= i < |parts| ==> sep !in parts[i]
  {
    if s == [] then [""]
    else
      var rest := Split(s[1..], sep);
      if s[0] == sep then [""] + rest
      else [[s[0]] + rest[0]] + rest[1..]
  }

  /** `sep.join(parts)`, the inverse of `Split`. */
  function Join(parts: seq<string>, sep: char): string
    requires |parts| >= 1
  {
    if |parts| == 1 then parts[0] else parts[0] + [sep] + Join(parts[1..], sep)
  }

  lemma {:induction false} JoinSplit(s: string, sep: char)
    ensures Join(Split(s, sep), sep) == s
  {
    if s != [] {
      JoinSplit(s[1..], sep);
      var rest := Split(s[1..], sep);
      if s[0] != sep {
        if |rest| > 1 {
          assert ([[s[0]] + rest[0]] + rest[1..])[1..] == rest[1..];
        }
      }
    }
  }

  lemma {:induction false} SplitJoin(parts: seq<string>, sep: char)
    requires |parts| >= 1
    requires forall i :: 0 <= i < |parts| ==> sep !in parts[i]
    ensures Split(Join(parts, sep), sep) == parts
  {
    if |parts| == 1 {
      SplitNoSeparator(parts[0], sep);
    } else {
      SplitJoin(parts[1..], sep);
      SplitPrefix(parts[0], Join(parts[1..], sep), sep);
      assert parts == [parts[0]] + parts[1..];
    }
  }

  lemma {:induction false} SplitNoSeparator(s: string, sep: char)
    requires sep !in s
    ensures Split(s, sep) == [s]
  {
    if s != [] {
      SplitNoSeparator(s[1..], sep);
      assert s[0] != sep && [s[0]] + s[1..] == s;
    }
  }

  /** Splitting `a + sep + b` where `a` holds no separator. */
  lemma {:induction false} SplitPrefix(a: string, b: string, sep: char)
    requires sep !in a
    ensures Split(a + [sep] + b, sep) == [a] + Split(b, sep)
  {
    if a == [] {
      assert a + [sep] + b == [sep] + b;
      assert ([sep] + b)[1..] == b;
    } else {
      SplitPrefix(a[1..], b, sep);
      assert (a + [sep] + b)[1..] == a[1..] + [sep] + b;
      assert [a[0]] + a[1..] == a;
    }
  }

  // ---------------------------------------------------------------- digits

  predicate IsDigit(c: char) {
    '0' <= c <= '9'
  }

  predicate AllDigits(s: string) {
    forall i :: 0 <= i < |s| ==> IsDigit(s[i])
  }

  function DigitValue(c: char): (d: nat)
    requires IsDigit(c)
    ensures d < 10
  {
    c as int - '0' as int
  }

  function DigitChar(d: nat): (c: char)
    requires d < 10
    ensures IsDigit(c) && DigitValue(c) == d
  {
    ('0' as int + d) as char
  }

  /** The value of a run of decimal digits, most significant first. */
  function DigitsValue(s: string): nat
    requires AllDigits(s)
  {
    if s == [] then 0 else DigitsValue(s[..|s| - 1]) * 10 + DigitValue(s[|s| - 1])
  }

  /** `str(n)` for a non-negative integer. */
  function FormatNat(n: nat): (s: string)
    ensures |s| > 0 && AllDigits(s)
  {
    if n < 10 then [DigitChar(n)] else FormatNat(n / 10) + [DigitChar(n % 10)]
  }

  /** `str(i)`, also what an f-string writes for an int. */
  function FormatInt(i: int): (s: string)
    ensures |s| > 0
    ensures ';' !in s && '.' !in s && '/' !in s
  {
    var s := if i < 0 then "-" + FormatNat(-i) else FormatNat(i);
    assert forall k :: 0 <= k < |s| ==> s[k] == '-' || IsDigit(s[k]);
    s
  }

  lemma {:induction false} FormatNatValue(n: nat)
    ensures DigitsValue(FormatNat(n)) == n
  {
    if n >= 10 {
      FormatNatValue(n / 10);
      var s := FormatNat(n);
      assert s[..|s| - 1] == FormatNat(n / 10);
    }
  }

  // ---------------------------------------------------------------- int()

  /** A leading `+` or `-`, and whether it negates. */
  function SignOf(s: string): (r: (bool, string))
    ensures |r.1| <= |s|
  {
    if |s| > 0 && (s[0] == '-' || s[0] == '+') then (s[0] == '-', s[1..]) else (false, s)
  }

  function Signed(negative: bool, n: nat): int {
    if negative then -(n as int) else n
  }

  /** `int(s)` on a string: a sign, then one or more digits. */
  function ParseInt(s: string): (r: Option<int>)
    ensures r.Some? ==> |s| > 0 && forall k :: 0 <= k < |s| ==> s[k] != '.' && s[k] != ';'
  {
    var (negative, body) := SignOf(s);
    if |body| > 0 && AllDigits(body) then Some(Signed(negative, DigitsValue(body))) else None
  }

  lemma ParseIntFormat(i: int)
    ensures ParseInt(FormatInt(i)) == Some(i)
  {
    if i < 0 {
      ParseIntNegative(-i);
    } else {
      ParseIntNat(i);
    }
  }

  lemma ParseIntNat(n: nat)
    ensures ParseInt(FormatNat(n)) == Some(n)
  {
    var s := FormatNat(n);
    assert IsDigit(s[0]);
    assert SignOf(s) == (false, s);
    FormatNatValue(n);
  }

  lemma ParseIntNegative(n: nat)
    requires n > 0
    ensures ParseInt("-" + FormatNat(n)) == Some(-(n as int))
  {
    var s := "-" + FormatNat(n);
    assert s[0] == '-' && s[1..] == FormatNat(n);
    assert SignOf(s) == (true, FormatNat(n));
    FormatNatValue(n);
  }

  // ---------------------------------------------------------------- int(float())

  /** `int(float(s))`: a sign, then digits with an optional fraction, at least
      one digit in all; the fraction is discarded (truncation toward zero). */
  function ParseDecimal(s: string): (r: Option<int>)
  {
    var (negative, body) := SignOf(s);
    var parts := Split(body, '.');
    if |parts| == 1 && |body| > 0 && AllDigits(body) then
      Some(Signed(negative, DigitsValue(body)))
    else if |parts| == 2 && AllDigits(parts[0]) && AllDigits(parts[1]) && |parts[0]| + |parts[1]| > 0 then
      Some(Signed(negative, DigitsValue(parts[0])))
    else
      None
  }

  /** Every literal `int` accepts, `float` accepts with the same value. */
  lemma IntLiteralIsDecimal(s: string)
    requires ParseInt(s).Some?
    ensures ParseDecimal(s) == ParseInt(s)
  {
    var (negative, body) := SignOf(s);
    assert '.' !in body;
    SplitNoSeparator(body, '.');
  }

  /** A fraction after an integer literal is dropped: truncation, not rounding. */
  lemma TruncatesFraction(s: string, fraction: string)
    requires ParseInt(s).Some?
    requires AllDigits(fraction)
    ensures ParseDecimal(s + "." + fraction) == ParseInt(s)
  {
    var (negative, body) := SignOf(s);
    assert (s + "." + fraction)[0] == s[0];
    if s[0] == '-' || s[0] == '+' {
      assert (s + "." + fraction)[1..] == body + "." + fraction;
    }
    assert SignOf(s + "." + fraction) == (negative, body + "." + fraction);
    assert '.' !in fraction;
    SplitNoSeparator(fraction, '.');
    SplitPrefix(body, fraction, '.');
  }
}
