/** Splitting and joining on one character, and decimal numerals, as the Go library does them. */
module Strings {

  // ----- strings.Split and strings.Join with a one-character separator

  function Split(s: string, d: char): (parts: seq<string>)
    ensures parts != []
  {
    if s == "" then [""]
    else
      var rest := Split(s[1..], d);
      if s[0] == d then [""] + rest else [[s[0]] + rest[0]] + rest[1..]
  }

  function Join(parts: seq<string>, d: char): string {
    if parts == [] then ""
    else if |parts| == 1 then parts[0]
    else parts[0] + [d] + Join(parts[1..], d)
  }

  function Count(s: string, d: char): nat {
    if s == "" then 0 else (if s[0] == d then 1 else 0) + Count(s[1..], d)
  }

  lemma {:induction false} SplitNone(s: string, d: char)
    requires d !in s
    ensures Split(s, d) == [s]
  {
    if s != "" {
      SplitNone(s[1..], d);
      assert [s[0]] + s[1..] == s;
    }
  }

  lemma {:induction false} SplitAt(a: string, d: char, b: string)
    requires d !in a
    ensures Split(a + [d] + b, d) == [a] + Split(b, d)
  {
    var s := a + [d] + b;
    if a == "" {
      assert s[1..] == b;
    } else {
      SplitAt(a[1..], d, b);
      assert s[1..] == a[1..] + [d] + b;
      assert [a[0]] + a[1..] == a;
    }
  }

  /** head and tail are the first part of s and the others. */
  predicate HeadOfSplit(s: string, d: char, head: string, tail: seq<string>) {
    && d !in head && head <= s
    && (|head| < |s| ==> s[|head|] == d)
    && tail == if |head| < |s| then Split(s[|head| + 1..], d) else []
  }

  lemma HeadOneLonger(s: string, d: char, head: string, tail: seq<string>)
    requires s != "" && s[0] != d && HeadOfSplit(s[1..], d, head, tail)
    ensures HeadOfSplit(s, d, [s[0]] + head, tail)
  {
    assert s == [s[0]] + s[1..];
    if |head| < |s[1..]| { assert s[1..][|head| + 1..] == s[|head| + 2..]; }
  }

  /** The first part ends at the first separator. */
  lemma {:induction false} SplitHead(s: string, d: char)
    ensures HeadOfSplit(s, d, Split(s, d)[0], Split(s, d)[1..])
  {
    if s != "" {
      var rest := Split(s[1..], d);
      if s[0] == d {
        assert ([""] + rest)[1..] == rest;
      } else {
        SplitHead(s[1..], d);
        HeadOneLonger(s, d, rest[0], rest[1..]);
        assert ([[s[0]] + rest[0]] + rest[1..])[1..] == rest[1..];
      }
    }
  }

  lemma {:induction false} SplitParts(s: string, d: char)
    ensures forall p :: p in Split(s, d) ==> d !in p
    ensures Join(Split(s, d), d) == s
    ensures |Split(s, d)| == 1 + Count(s, d)
  {
    if s != "" {
      var rest := Split(s[1..], d);
      SplitParts(s[1..], d);
      assert s == [s[0]] + s[1..];
      if s[0] == d {
        assert ([""] + rest)[1..] == rest;
      } else {
        var parts := [[s[0]] + rest[0]] + rest[1..];
        assert parts[1..] == rest[1..];
      }
    }
  }

  lemma {:induction false} SplitJoin(parts: seq<string>, d: char)
    requires parts != [] && forall p :: p in parts ==> d !in p
    ensures Split(Join(parts, d), d) == parts
  {
    if |parts| == 1 {
      SplitNone(parts[0], d);
    } else {
      SplitJoin(parts[1..], d);
      SplitAt(parts[0], d, Join(parts[1..], d));
      assert parts == [parts[0]] + parts[1..];
    }
  }

  lemma {:induction false} CountConcat(a: string, b: string, d: char)
    ensures Count(a + b, d) == Count(a, d) + Count(b, d)
  {
    if a == "" {
      assert a + b == b;
    } else {
      CountConcat(a[1..], b, d);
      assert (a + b)[1..] == a[1..] + b;
    }
  }

  lemma {:induction false} CountZero(s: string, d: char)
    ensures Count(s, d) == 0 <==> d !in s
  {
    if s != "" {
      CountZero(s[1..], d);
      assert s == [s[0]] + s[1..];
    }
  }

  // ----- decimal numerals

  predicate IsDigit(c: char) {
    '0' <= c <= '9'
  }

  predicate AllDigits(s: string) {
    forall i :: 0 <= i < |s| ==> IsDigit(s[i])
  }

  function DigitValue(c: char): (v: int)
    ensures IsDigit(c) ==> 0 <= v <= 9
  {
    c as int - '0' as int
  }

  function Digit(n: int): (c: char)
    requires 0 <= n <= 9
    ensures IsDigit(c) && DigitValue(c) == n
  {
    '0' + n as char
  }

  function Value(s: string): int {
    if s == "" then 0 else 10 * Value(s[..|s| - 1]) + DigitValue(s[|s| - 1])
  }

  function Decimal(n: nat): string {
    if n < 10 then [Digit(n)] else Decimal(n / 10) + [Digit(n % 10)]
  }

  /** A numeral without a superfluous leading zero. */
  predicate Canonical(s: string) {
    s != "" && AllDigits(s) && (|s| > 1 ==> s[0] != '0')
  }

  lemma {:induction false} ValueBounds(s: string)
    requires AllDigits(s)
    ensures Value(s) >= 0
    ensures s != "" && s[0] != '0' ==> Value(s) >= 1
  {
    if s != "" { ValueBounds(s[..|s| - 1]); }
  }

  lemma {:induction false} DecimalIsCanonical(n: nat)
    ensures Canonical(Decimal(n)) && Value(Decimal(n)) == n
    ensures n > 0 ==> Decimal(n)[0] != '0'
  {
    if n >= 10 {
      DecimalIsCanonical(n / 10);
      var s := Decimal(n / 10);
      assert (s + [Digit(n % 10)])[..|s|] == s;
    } else {
      assert [Digit(n)][..0] == "";
    }
  }

  lemma DecimalOneMore(n: nat, c: char)
    requires n > 0 && IsDigit(c)
    ensures Decimal(10 * n + DigitValue(c)) == Decimal(n) + [c]
  {
    var v := 10 * n + DigitValue(c);
    assert v / 10 == n && v % 10 == DigitValue(c);
    assert Digit(DigitValue(c)) == c;
  }

  lemma DecimalOfDigit(c: char)
    requires IsDigit(c)
    ensures Value([c]) == DigitValue(c) && Decimal(DigitValue(c)) == [c]
  {
    assert [c][..0] == "";
    assert Digit(DigitValue(c)) == c;
  }

  lemma {:induction false} CanonicalIsDecimal(s: string)
    requires Canonical(s)
    ensures Value(s) >= 0 && s == Decimal(Value(s))
  {
    var init, c := s[..|s| - 1], s[|s| - 1];
    assert s == init + [c];
    if init == "" {
      DecimalOfDigit(c);
    } else {
      ValueBounds(init);
      CanonicalIsDecimal(init);
      DecimalOneMore(Value(init), c);
      assert Value(s) == 10 * Value(init) + DigitValue(c);
    }
  }

  // ----- 64-bit integers in text

  const INT64_LIMIT: int := 0x8000_0000_0000_0000

  /** strconv.Atoi, with a 64-bit int, and strconv.ParseInt(s, 10, 64) succeed: an optional sign, digits, and a value in range. */
  predicate IsAtoi(s: string) {
    var signed := s != "" && (s[0] == '+' || s[0] == '-');
    var body := if signed then s[1..] else s;
    && body != "" && AllDigits(body)
    && if signed && s[0] == '-' then Value(body) <= INT64_LIMIT else Value(body) < INT64_LIMIT
  }

  function Pow10(n: nat): int {
    if n == 0 then 1 else 10 * Pow10(n - 1)
  }

  /** The number digits stand for, each at its power of ten. */
  function Positional(s: string): int {
    if s == "" then 0 else DigitValue(s[0]) * Pow10(|s| - 1) + Positional(s[1..])
  }

  lemma {:induction false} PositionalLast(s: string, c: char)
    ensures Positional(s + [c]) == 10 * Positional(s) + DigitValue(c)
  {
    if s != "" {
      PositionalLast(s[1..], c);
      assert (s + [c])[1..] == s[1..] + [c];
      MulTen(DigitValue(s[0]), Pow10(|s| - 1));
    } else {
      assert Pow10(0) == 1 && ([c])[1..] == "" && "" + [c] == [c];
    }
  }

  lemma MulTen(a: int, b: int)
    ensures a * (10 * b) == 10 * (a * b)
  {
  }

  lemma {:induction false} ValueIsPositional(s: string)
    ensures Value(s) == Positional(s)
  {
    if s != "" {
      var n := |s| - 1;
      ValueIsPositional(s[..n]);
      PositionalLast(s[..n], s[n]);
      assert s == s[..n] + [s[n]];
    }
  }

  /** A sign or none, then characters 0 to 9, at least one, and the number fits into 64 bits. */
  ghost predicate Writes64(s: string, sign: string, digits: string) {
    && s == sign + digits && sign in {"", "+", "-"}
    && digits != "" && (forall i :: 0 <= i < |digits| ==> '0' <= digits[i] <= '9')
    && -9223372036854775808 <= (if sign == "-" then -Positional(digits) else Positional(digits)) <= 9223372036854775807
  }

  ghost predicate Integer64(s: string) {
    exists sign, digits :: Writes64(s, sign, digits)
  }

  lemma AtoiWrites(s: string)
    requires IsAtoi(s)
    ensures Integer64(s)
  {
    var sign := if s[0] == '+' then "+" else if s[0] == '-' then "-" else "";
    var digits := s[|sign|..];
    ValueIsPositional(digits);
    ValueBounds(digits);
    assert s == sign + digits;
    assert Writes64(s, sign, digits);
  }

  lemma WritesAtoi(s: string, sign: string, digits: string)
    requires Writes64(s, sign, digits)
    ensures IsAtoi(s)
  {
    ValueIsPositional(digits);
    assert IsDigit(digits[0]);
    assert s[|sign|..] == digits;
    assert s[0] == if sign == "" then digits[0] else sign[0];
  }

  lemma AtoiIff(s: string)
    ensures IsAtoi(s) <==> Integer64(s)
  {
    if IsAtoi(s) { AtoiWrites(s); }
    if sign, digits :| Writes64(s, sign, digits) { WritesAtoi(s, sign, digits); }
  }

  /** strconv.FormatInt(n, 10) */
  function FormatInt(n: int): string {
    if n < 0 then "-" + Decimal(-n) else Decimal(n)
  }

  /** The text is a sign for a negative number only, and the digits of the number without a superfluous zero. */
  lemma FormatIntReads(n: int)
    ensures var s := FormatInt(n);
            var digits := if n < 0 then s[1..] else s;
            && s == (if n < 0 then "-" else "") + digits
            && Canonical(digits) && Positional(digits) == if n < 0 then -n else n
  {
    DecimalIsCanonical(if n < 0 then -n else n);
    ValueIsPositional(Decimal(if n < 0 then -n else n));
    if n < 0 { assert ("-" + Decimal(-n))[1..] == Decimal(-n); }
  }

  lemma FormatIntParses(n: int)
    requires -INT64_LIMIT <= n < INT64_LIMIT
    ensures FormatInt(n) != "" && IsAtoi(FormatInt(n))
  {
    if n < 0 {
      DecimalIsCanonical(-n);
      assert ("-" + Decimal(-n))[1..] == Decimal(-n);
    } else {
      DecimalIsCanonical(n);
      assert IsDigit(Decimal(n)[0]);
    }
  }
}
