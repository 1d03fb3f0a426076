/** The unit a byte count is printed in. */
module ByteCount {
  newtype int64 = x: int | -0x8000_0000_0000_0000 <= x < 0x8000_0000_0000_0000

  function Pow1024(n: nat): int {
    if n == 0 then 1 else 1024 * Pow1024(n - 1)
  }

  lemma {:induction false} Pow1024Grows(m: nat, n: nat)
    requires m <= n
    ensures 0 < Pow1024(m) <= Pow1024(n)
  {
    if n > 0 { Pow1024Grows(if m < n then m else m - 1, n - 1); }
  }

  /** The unit a size is printed in: the whole multiples of div = 1024^(exp + 1) in b are 1 to 1023. */
  predicate PrintedIn(b: int, div: int, exp: nat) {
    div == Pow1024(exp + 1) && div <= b < 1024 * div
  }

  /** b divided by 1024 exp + 1 times, as the loop does it. */
  function Quotient(b: int, exp: nat): int {
    (if exp == 0 then b else Quotient(b, exp - 1)) / 1024
  }

  /** byteCountBinary: `small` is the case printed in plain bytes. No step leaves 64 bits, and exp indexes "KMGTPE". */
  method ByteCountBinary(b: int64) returns (small: bool, div: int64, exp: int64)
    ensures small <==> b < 1024
    ensures !small ==> 0 <= exp <= 5 && PrintedIn(b as int, div as int, exp as int)
  {
    small, div, exp := b < 1024, 1024, 0;
    if small { return; }
    assert Pow1024(1) == 1024;
    var n := b / 1024;
    while n >= 1024
      invariant 0 <= exp <= 5 && 1 <= n && div as int == Pow1024(exp as int + 1)
      invariant n as int == Quotient(b as int, exp as int)
      decreases n
    {
      StillFits(b as int, exp as int);
      assert div as int * 1024 <= b as int;
      div := div * 1024;
      exp := exp + 1;
      n := n / 1024;
    }
    QuotientBounds(b as int, exp as int);
    LastQuotient(b as int, n as int, div as int);
  }

  lemma MulMonotone(a: int, b: int, d: int)
    requires a <= b && d > 0
    ensures a * d <= b * d
  {
  }

  lemma MulUnit(q: int, d: int)
    ensures q * (1024 * d) == (1024 * q) * d
  {
  }

  lemma DivideOnce(b: int, n: int, div: int)
    requires n * div <= b < (n + 1) * div && div > 0
    ensures (n / 1024) * (1024 * div) <= b < (n / 1024 + 1) * (1024 * div)
  {
    var q := n / 1024;
    MulUnit(q, div);
    MulUnit(q + 1, div);
    MulMonotone(1024 * q, n, div);
    MulMonotone(n + 1, 1024 * (q + 1), div);
  }

  lemma {:induction false} QuotientBounds(b: int, exp: nat)
    ensures Pow1024(exp + 1) > 0
    ensures Quotient(b, exp) * Pow1024(exp + 1) <= b < (Quotient(b, exp) + 1) * Pow1024(exp + 1)
  {
    Pow1024Grows(0, exp + 1);
    if exp == 0 {
      assert Pow1024(1) == 1024;
    } else {
      QuotientBounds(b, exp - 1);
      DivideOnce(b, Quotient(b, exp - 1), Pow1024(exp));
    }
  }

  lemma LastQuotient(b: int, n: int, div: int)
    requires 1 <= n < 1024 && div > 0 && n * div <= b < (n + 1) * div
    ensures div <= b < 1024 * div
  {
  }

  lemma SeventhPower()
    ensures Pow1024(7) >= 0x8000_0000_0000_0000
  {
  }

  /** One more round of the loop: the next divisor is still at most b, and there are only six prefixes. */
  lemma StillFits(b: int, exp: nat)
    requires Quotient(b, exp) >= 1024 && b < 0x8000_0000_0000_0000
    ensures 1024 * Pow1024(exp + 1) <= b && exp < 5
  {
    QuotientBounds(b, exp);
    var div := Pow1024(exp + 1);
    assert 1024 * div <= Quotient(b, exp) * div;
    SeventhPower();
    Pow1024Grows(7, if exp >= 5 then exp + 2 else 7);
  }

  /** There is only one such unit. */
  lemma UnitIsUnique(b: int, div1: int, exp1: nat, div2: int, exp2: nat)
    requires PrintedIn(b, div1, exp1) && PrintedIn(b, div2, exp2)
    ensures exp1 == exp2 && div1 == div2
  {
    if exp1 < exp2 { Pow1024Grows(exp1 + 2, exp2 + 1); }
    if exp2 < exp1 { Pow1024Grows(exp2 + 2, exp1 + 1); }
  }
}
