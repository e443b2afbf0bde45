/** base/bits.h: logarithms and alignment of unsigned integers. */
module Bits {
  import opened Arithmetic

  function Pow2(n: nat): (p: nat)
    ensures p > 0
  {
    if n == 0 then 1 else 2 * Pow2(n - 1)
  }

  lemma Pow2Adds(m: nat, n: nat)
    ensures Pow2(m + n) == Pow2(m) * Pow2(n)
  {
    if n == 0 {
    } else {
      Pow2Adds(m, n - 1);
      assert m + n == m + (n - 1) + 1;
      assert Pow2(m) * (2 * Pow2(n - 1)) == 2 * (Pow2(m) * Pow2(n - 1));
    }
  }

  // value >> shift
  function ShiftRight(value: nat, shift: nat): nat {
    Div(value, Pow2(shift))
  }

  // value is n shifted right by log.
  ghost predicate Shifted(n: nat, value: nat, log: nat) {
    Pow2(log) * value <= n < Pow2(log) * (value + 1)
  }

  lemma Rescale(n: nat, p: nat, d: nat, value: nat, x: nat)
    requires d * x <= value < d * (x + 1)
    requires p * value <= n < p * (value + 1)
    ensures p * d * x <= n < p * d * (x + 1)
  {
    TimesIsMonotone(p, d * x, value);
    TimesIsMonotone(p, value + 1, d * (x + 1));
    TimesAssociates(p, d, x);
    TimesAssociates(p, d, x + 1);
  }

  lemma ShiftAgain(n: nat, value: nat, log: nat, shift: nat)
    requires Shifted(n, value, log)
    ensures Shifted(n, ShiftRight(value, shift), log + shift)
  {
    hide Pow2, Div;
    Pow2Adds(log, shift);
    Rescale(n, Pow2(log), Pow2(shift), value, ShiftRight(value, shift));
  }

  lemma BelowSquare(value: nat, d: nat)
    requires d > 0 && value < d * d
    ensures Div(value, d) < d
  {
    var x := Div(value, d);
    if x >= d {
      TimesIsMonotone(d, d, x);
    }
  }

  lemma QuotientBelow(value: nat, half: nat)
    requires value < Pow2(half + half)
    ensures ShiftRight(value, half) < Pow2(half)
  {
    hide Pow2;
    Pow2Adds(half, half);
    BelowSquare(value, Pow2(half));
  }

  // What is left of n once its last `log` bits are gone has its highest bit among the last 2^i.
  ghost predicate Narrowed(n: nat, value: nat, log: nat, i: nat) {
    0 < value < Pow2(Pow2(i)) && log + Pow2(i) <= 32 && Shifted(n, value, log)
  }

  lemma OneShift(n: nat, value: nat, log: nat, i: nat)
    requires Narrowed(n, value, log, i + 1)
    ensures var x := ShiftRight(value, Pow2(i));
      if x == 0 then Narrowed(n, value, log, i) else Narrowed(n, x, log + Pow2(i), i)
  {
    var shift := Pow2(i);
    assert Pow2(i + 1) == shift + shift;
    hide Pow2;
    ShiftAgain(n, value, log, shift);
    QuotientBelow(value, shift);
  }

  lemma NoShift(n: nat)
    ensures Shifted(n, n, 0)
  {
  }

  lemma Remainder(n: nat, value: nat, log: nat)
    requires Narrowed(n, value, log, 0)
    ensures log < 32 && Pow2(log) <= n < Pow2(log + 1)
  {
  }

  lemma PowersUsed()
    ensures Pow2(0) == 1 && Pow2(1) == 2 && Pow2(5) == 32 && Pow2(32) == 0x1_0000_0000
  {
    assert Pow2(8) == 256 && Pow2(16) == 65536 && Pow2(24) == 16777216;
  }

  /** Log2Floor: the i with 2^i <= n < 2^(i+1), or -1 for 0. */
  method Log2Floor(n: nat) returns (log: int)
    requires n < 0x1_0000_0000
    ensures n == 0 ==> log == -1
    ensures n > 0 ==> 0 <= log < 32 && Pow2(log) <= n < Pow2(log + 1)
  {
    if n == 0 {
      return -1;
    }
    log := 0;
    var value := n;
    PowersUsed();
    NoShift(n);
    assert Narrowed(n, value, log, 5);
    hide *;
    for i := 5 downto 0
      invariant 0 <= log && Narrowed(n, value, log, i)
    {
      var shift := Pow2(i);
      var x := ShiftRight(value, shift);
      OneShift(n, value, log, i);
      if x != 0 {
        value := x;
        log := log + shift;
      }
    }
    Remainder(n, value, log);
  }

  /** Log2Ceiling: the i with 2^(i-1) < n <= 2^i, or -1 for 0. */
  method Log2Ceiling(n: nat) returns (log: int)
    requires n < 0x1_0000_0000
    ensures n == 0 ==> log == -1
    ensures n == 1 ==> log == 0
    ensures n > 1 ==> 0 < log <= 32 && Pow2(log - 1) < n <= Pow2(log)
  {
    if n == 0 {
      return -1;
    }
    log := Log2Floor(n - 1);
    log := 1 + log;
  }

  /** Align: the least multiple of the alignment that is at least size. */
  function Align(size: nat, alignment: nat): (r: nat)
    requires alignment > 0
    ensures size <= r < size + alignment && r % alignment == 0
  {
    AlignedQuotient(size, alignment);
    (size + alignment - 1) / alignment * alignment
  }

  lemma AlignedQuotient(size: nat, alignment: nat)
    requires alignment > 0
    ensures var r := (size + alignment - 1) / alignment * alignment;
      size <= r < size + alignment && r % alignment == 0
  {
    var q := (size + alignment - 1) / alignment;
    Quotient(q * alignment, alignment, q, 0);
  }
}
