/** Addition of words is addition of their bits. */
module WordBits {
  import opened Words

  function PlusBits(a: bv32, b: bv32): bv32 { a + b }

  // The carries of an addition, each at the place it goes into.
  function Carries(a: bv32, b: bv32): bv32 { a ^ b ^ (a + b) }

  // Whether b has the bit m.
  predicate Has(b: bv32, m: bv32) { b & m != 0 }

  // The bit m and the one above it.
  predicate Follows(m: bv32, next: bv32) {
    m != 0 && m & (m - 1) == 0 && next == m << 1
  }

  predicate Up(m: bv32) { m != 0 }

  lemma CarryGoesOn(a: bv32, b: bv32, m: bv32, next: bv32)
    requires Follows(m, next)
    ensures Has(PlusBits(a, b), m) <==> (Has(a, m) <==> (Has(b, m) <==> Has(Carries(a, b), m)))
    ensures Up(next) ==>
      (Has(Carries(a, b), next) <==>
       (Has(a, m) && Has(b, m)) || (Has(Carries(a, b), m) && (Has(a, m) || Has(b, m))))
  {
    CarryBits(a, b, m);
    hide Has, Carries;
  }

  lemma CarryBits(a: bv32, b: bv32, m: bv32)
    requires m != 0 && m & (m - 1) == 0
    ensures Has(a + b, m) <==> (Has(a, m) <==> (Has(b, m) <==> Has(Carries(a, b), m)))
    ensures m << 1 != 0 ==>
      (Has(Carries(a, b), m << 1) <==>
       (Has(a, m) && Has(b, m)) || (Has(Carries(a, b), m) && (Has(a, m) || Has(b, m))))
  {
  }

  // What the bits below m are worth.
  function Below(b: bv32, m: bv32): int { (b & (m - 1)) as int }

  // The bit m is worth p.
  predicate Worth(b: bv32, m: bv32, next: bv32, p: int) {
    Below(b, next) == Below(b, m) + if Has(b, m) then p else 0
  }

  // Up to m the sum is right, with the carry into m.
  predicate AddsUp(a: bv32, b: bv32, m: bv32, p: int) {
    Below(a, m) + Below(b, m) == Below(PlusBits(a, b), m) + if Has(Carries(a, b), m) then p else 0
  }

  lemma AddOneBit(a: bv32, b: bv32, m: bv32, next: bv32, p: int)
    requires Follows(m, next) && AddsUp(a, b, m, p) && Up(next)
    requires Worth(a, m, next, p) && Worth(b, m, next, p) && Worth(PlusBits(a, b), m, next, p)
    ensures AddsUp(a, b, next, 2 * p)
  {
    hide Has, Below, Carries, PlusBits, Follows, Up;
    CarryGoesOn(a, b, m, next);
  }

  lemma AddTopBit(a: bv32, b: bv32, m: bv32, p: int)
    requires Follows(m, 0) && AddsUp(a, b, m, p)
    requires Worth(a, m, 0, p) && Worth(b, m, 0, p) && Worth(PlusBits(a, b), m, 0, p)
    ensures Below(a, 0) + Below(b, 0) - Below(PlusBits(a, b), 0) in {0, 2 * p}
  {
    hide Has, Below, Carries, PlusBits, Follows, Up;
    CarryGoesOn(a, b, m, 0);
  }

  lemma Worth0(b: bv32)
    ensures Worth(b, 0x1, 0x2, 0x1)
    ensures Worth(b, 0x2, 0x4, 0x2)
    ensures Worth(b, 0x4, 0x8, 0x4)
    ensures Worth(b, 0x8, 0x10, 0x8)
    ensures Worth(b, 0x10, 0x20, 0x10)
    ensures Worth(b, 0x20, 0x40, 0x20)
    ensures Worth(b, 0x40, 0x80, 0x40)
    ensures Worth(b, 0x80, 0x100, 0x80)
  {
  }

  lemma Worth8(b: bv32)
    ensures Worth(b, 0x100, 0x200, 0x100)
    ensures Worth(b, 0x200, 0x400, 0x200)
    ensures Worth(b, 0x400, 0x800, 0x400)
    ensures Worth(b, 0x800, 0x1000, 0x800)
    ensures Worth(b, 0x1000, 0x2000, 0x1000)
    ensures Worth(b, 0x2000, 0x4000, 0x2000)
    ensures Worth(b, 0x4000, 0x8000, 0x4000)
    ensures Worth(b, 0x8000, 0x10000, 0x8000)
  {
  }

  lemma Worth16(b: bv32)
    ensures Worth(b, 0x10000, 0x20000, 0x10000)
    ensures Worth(b, 0x20000, 0x40000, 0x20000)
    ensures Worth(b, 0x40000, 0x80000, 0x40000)
    ensures Worth(b, 0x80000, 0x100000, 0x80000)
    ensures Worth(b, 0x100000, 0x200000, 0x100000)
    ensures Worth(b, 0x200000, 0x400000, 0x200000)
    ensures Worth(b, 0x400000, 0x800000, 0x400000)
    ensures Worth(b, 0x800000, 0x1000000, 0x800000)
  {
  }

  lemma Worth24(b: bv32)
    ensures Worth(b, 0x1000000, 0x2000000, 0x1000000)
    ensures Worth(b, 0x2000000, 0x4000000, 0x2000000)
    ensures Worth(b, 0x4000000, 0x8000000, 0x4000000)
    ensures Worth(b, 0x8000000, 0x10000000, 0x8000000)
    ensures Worth(b, 0x10000000, 0x20000000, 0x10000000)
    ensures Worth(b, 0x20000000, 0x40000000, 0x20000000)
    ensures Worth(b, 0x40000000, 0x80000000, 0x40000000)
  {
  }

  lemma TopWorth(b: bv32)
    ensures Worth(b, 0x80000000, 0, 0x80000000)
  {
    hide Below, Has;
    WholeValue(b);
    TopParts(b);
    TopBit(b);
  }

  lemma TopParts(b: bv32)
    ensures Below(b, 0x80000000) == (b & 0x7fffffff) as int
    ensures Has(b, 0x80000000) == (b & 0x80000000 != 0)
  {
  }

  lemma TopBit(b: bv32)
    ensures (b as int) == ((b & 0x7fffffff) as int) + if b & 0x80000000 != 0 then 0x80000000 else 0
  {
  }

  lemma NothingBelow(a: bv32, b: bv32)
    ensures AddsUp(a, b, 1, 1)
  {
  }

  lemma EachFollows()
    ensures Follows(0x1, 0x2) && Up(0x2)
    ensures Follows(0x2, 0x4) && Up(0x4)
    ensures Follows(0x4, 0x8) && Up(0x8)
    ensures Follows(0x8, 0x10) && Up(0x10)
    ensures Follows(0x10, 0x20) && Up(0x20)
    ensures Follows(0x20, 0x40) && Up(0x40)
    ensures Follows(0x40, 0x80) && Up(0x80)
    ensures Follows(0x80, 0x100) && Up(0x100)
    ensures Follows(0x100, 0x200) && Up(0x200)
    ensures Follows(0x200, 0x400) && Up(0x400)
    ensures Follows(0x400, 0x800) && Up(0x800)
    ensures Follows(0x800, 0x1000) && Up(0x1000)
    ensures Follows(0x1000, 0x2000) && Up(0x2000)
    ensures Follows(0x2000, 0x4000) && Up(0x4000)
    ensures Follows(0x4000, 0x8000) && Up(0x8000)
    ensures Follows(0x8000, 0x10000) && Up(0x10000)
    ensures Follows(0x10000, 0x20000) && Up(0x20000)
    ensures Follows(0x20000, 0x40000) && Up(0x40000)
    ensures Follows(0x40000, 0x80000) && Up(0x80000)
    ensures Follows(0x80000, 0x100000) && Up(0x100000)
    ensures Follows(0x100000, 0x200000) && Up(0x200000)
    ensures Follows(0x200000, 0x400000) && Up(0x400000)
    ensures Follows(0x400000, 0x800000) && Up(0x800000)
    ensures Follows(0x800000, 0x1000000) && Up(0x1000000)
    ensures Follows(0x1000000, 0x2000000) && Up(0x2000000)
    ensures Follows(0x2000000, 0x4000000) && Up(0x4000000)
    ensures Follows(0x4000000, 0x8000000) && Up(0x8000000)
    ensures Follows(0x8000000, 0x10000000) && Up(0x10000000)
    ensures Follows(0x10000000, 0x20000000) && Up(0x20000000)
    ensures Follows(0x20000000, 0x40000000) && Up(0x40000000)
    ensures Follows(0x40000000, 0x80000000) && Up(0x80000000)
    ensures Follows(0x80000000, 0x0)
  {
  }

  lemma PlusIsBits(a: bv32, b: bv32)
    ensures Plus(FromBits(a), FromBits(b)) == FromBits(PlusBits(a, b))
  {
    SumsDiffer(a, b);
    WholeValue(a);
    WholeValue(b);
    WholeValue(PlusBits(a, b));
    hide Below, PlusBits, FromBits;
  }

  lemma WholeValue(b: bv32)
    ensures Below(b, 0) == FromBits(b)
  {
  }

  lemma SumsDiffer(a: bv32, b: bv32)
    ensures Below(a, 0) + Below(b, 0) - Below(PlusBits(a, b), 0) in {0, 0x1_0000_0000}
  {
    hide *;
    Worth0(a); Worth8(a); Worth16(a); Worth24(a); TopWorth(a);
    Worth0(b); Worth8(b); Worth16(b); Worth24(b); TopWorth(b);
    var s := PlusBits(a, b);
    Worth0(s); Worth8(s); Worth16(s); Worth24(s); TopWorth(s);
    NothingBelow(a, b);
    EachFollows();
    AddOneBit(a, b, 0x1, 0x2, 0x1);
    AddOneBit(a, b, 0x2, 0x4, 0x2);
    AddOneBit(a, b, 0x4, 0x8, 0x4);
    AddOneBit(a, b, 0x8, 0x10, 0x8);
    AddOneBit(a, b, 0x10, 0x20, 0x10);
    AddOneBit(a, b, 0x20, 0x40, 0x20);
    AddOneBit(a, b, 0x40, 0x80, 0x40);
    AddOneBit(a, b, 0x80, 0x100, 0x80);
    AddOneBit(a, b, 0x100, 0x200, 0x100);
    AddOneBit(a, b, 0x200, 0x400, 0x200);
    AddOneBit(a, b, 0x400, 0x800, 0x400);
    AddOneBit(a, b, 0x800, 0x1000, 0x800);
    AddOneBit(a, b, 0x1000, 0x2000, 0x1000);
    AddOneBit(a, b, 0x2000, 0x4000, 0x2000);
    AddOneBit(a, b, 0x4000, 0x8000, 0x4000);
    AddOneBit(a, b, 0x8000, 0x10000, 0x8000);
    AddOneBit(a, b, 0x10000, 0x20000, 0x10000);
    AddOneBit(a, b, 0x20000, 0x40000, 0x20000);
    AddOneBit(a, b, 0x40000, 0x80000, 0x40000);
    AddOneBit(a, b, 0x80000, 0x100000, 0x80000);
    AddOneBit(a, b, 0x100000, 0x200000, 0x100000);
    AddOneBit(a, b, 0x200000, 0x400000, 0x200000);
    AddOneBit(a, b, 0x400000, 0x800000, 0x400000);
    AddOneBit(a, b, 0x800000, 0x1000000, 0x800000);
    AddOneBit(a, b, 0x1000000, 0x2000000, 0x1000000);
    AddOneBit(a, b, 0x2000000, 0x4000000, 0x2000000);
    AddOneBit(a, b, 0x4000000, 0x8000000, 0x4000000);
    AddOneBit(a, b, 0x8000000, 0x10000000, 0x8000000);
    AddOneBit(a, b, 0x10000000, 0x20000000, 0x10000000);
    AddOneBit(a, b, 0x20000000, 0x40000000, 0x20000000);
    AddOneBit(a, b, 0x40000000, 0x80000000, 0x40000000);
    AddTopBit(a, b, 0x80000000, 0x80000000);
  }
}
